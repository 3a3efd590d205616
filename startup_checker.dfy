/** The startup check (StartupChecker): what it finds missing, what it offers to
    install, and how it combines the library and interpreter outcomes. */
module Startup {
  import opened Text
  import opened Platform
  import opened FileTree
  import opened Presence
  import opened PortablePython
  import opened Libraries

  /** What the startup scan found missing. */
  datatype MissingComponents = MissingComponents(
    needsLvgl: bool, needsPython: bool, needsPythonPackages: bool, needsNrf52Sdk: bool,
    needsArmGnuToolchain: bool, needsNrf52Firmware: bool, needsCMake: bool,
    missingPackages: seq<string>)
  {
    /** hasAnyMissing: any of the seven flags; the package list itself is not consulted. */
    predicate HasAnyMissing() {
      needsLvgl || needsPython || needsPythonPackages || needsNrf52Sdk ||
      needsArmGnuToolchain || needsNrf52Firmware || needsCMake
    }

    /** One of the five library flags is set. */
    predicate NeedsLibraries() {
      needsLvgl || needsNrf52Sdk || needsArmGnuToolchain || needsNrf52Firmware || needsCMake
    }
  }

  /** The single files the scan looks for in the LVGL, SDK and toolchain slots. */
  const LvglScript: string := "scripts/LVGLImage.py"
  const SdkHeader: string := "components/softdevice/s132/headers/nrf_sdm.h"
  /** The CMake module file the scan looks for. */
  const CMakeModule: string := "share/cmake-4.1/Modules/CMakeDetermineSystem.cmake"

  function GccMarker(os: Os): string {
    if os == Windows then "bin/arm-none-eabi-gcc.exe" else "bin/arm-none-eabi-gcc"
  }

  function CMakeExe(os: Os): string {
    if os == Windows then "bin/cmake.exe" else "bin/cmake"
  }

  /** The firmware sources: the folder and its three key entries. */
  predicate FirmwareFound(t: Tree) {
    var d := SlotDir(Firmware);
    d in t && Child(d, "CMakeLists.txt") in t && Child(d, "src") in t && Child(d, "lv_conf.h") in t
  }

  /** CMake: the folder, its executable and one module file. */
  predicate CMakeFound(t: Tree, os: Os) {
    var d := SlotDir(CMake);
    d in t && Child(d, CMakeExe(os)) in t && Child(d, CMakeModule) in t
  }

  /** checkAllComponents on the disk `t`: one flag per library from its files; the
      interpreter flag from its availability; and, only with an interpreter, each
      required package probed in order. */
  function ScanSpec(os: Os, t: Tree, run: Interpreter): MissingComponents {
    var missing := if Available(t, os, run) then MissingPackages(RequiredPackages, run) else [];
    MissingComponents(
      Child(SlotDir(Lvgl), LvglScript) !in t,
      !Available(t, os, run),
      missing != [],
      Child(SlotDir(NrfSdk), SdkHeader) !in t,
      Child(SlotDir(ArmToolchain), GccMarker(os)) !in t,
      !FirmwareFound(t),
      !CMakeFound(t, os),
      missing)
  }

  /** The file checks of checkAllComponents, one library at a time. */
  method ScanSlots(t: Tree, os: Os)
    returns (needsLvgl: bool, needsSdk: bool, needsToolchain: bool, needsFirmware: bool, needsCMake: bool)
    ensures needsLvgl == (Child(SlotDir(Lvgl), LvglScript) !in t)
    ensures needsSdk == (Child(SlotDir(NrfSdk), SdkHeader) !in t)
    ensures needsToolchain == (Child(SlotDir(ArmToolchain), GccMarker(os)) !in t)
    ensures needsFirmware == !FirmwareFound(t) && needsCMake == !CMakeFound(t, os)
  {
    needsLvgl := Child(SlotDir(Lvgl), LvglScript) !in t;
    needsSdk := Child(SlotDir(NrfSdk), SdkHeader) !in t;
    needsToolchain := Child(SlotDir(ArmToolchain), GccMarker(os)) !in t;
    var fw := SlotDir(Firmware);
    needsFirmware := fw !in t || Child(fw, "CMakeLists.txt") !in t || Child(fw, "src") !in t ||
                     Child(fw, "lv_conf.h") !in t;
    var cm := SlotDir(CMake);
    needsCMake := cm !in t || Child(cm, CMakeExe(os)) !in t || Child(cm, CMakeModule) !in t;
  }

  /** The scan's verdict, field by field. */
  lemma ScanSpecFrom(os: Os, t: Tree, run: Interpreter, m: MissingComponents)
    requires m.needsLvgl == (Child(SlotDir(Lvgl), LvglScript) !in t)
    requires m.needsPython == !Available(t, os, run)
    requires m.missingPackages == if Available(t, os, run) then MissingPackages(RequiredPackages, run) else []
    requires m.needsPythonPackages == (m.missingPackages != [])
    requires m.needsNrf52Sdk == (Child(SlotDir(NrfSdk), SdkHeader) !in t)
    requires m.needsArmGnuToolchain == (Child(SlotDir(ArmToolchain), GccMarker(os)) !in t)
    requires m.needsNrf52Firmware == !FirmwareFound(t) && m.needsCMake == !CMakeFound(t, os)
    ensures m == ScanSpec(os, t, run)
  {
  }

  /** Packages are probed only with an interpreter; then the flag is set exactly when
      some package is missing, and a package is listed exactly when its import fails. */
  lemma ScanPackages(os: Os, t: Tree, run: Interpreter)
    ensures var m := ScanSpec(os, t, run);
      (m.needsPython <==> !Available(t, os, run)) &&
      (m.needsPython ==> !m.needsPythonPackages && m.missingPackages == []) &&
      (!m.needsPython ==> (m.needsPythonPackages <==> m.missingPackages != [])) &&
      (!m.needsPython ==>
        forall p :: p in m.missingPackages <==> p in RequiredPackages && run(["-c", ImportProbe(p)]) != 0)
  {
    MissingPackagesExact(RequiredPackages, run);
  }

  /** The missing packages are listed in the order they are required. */
  lemma {:induction false} ScanKeepsPackageOrder(os: Os, t: Tree, run: Interpreter)
    ensures Subsequence(ScanSpec(os, t, run).missingPackages, RequiredPackages)
  {
    if Available(t, os, run) {
      MissingPackagesInOrder(RequiredPackages, run);
    } else {
      assert ScanSpec(os, t, run).missingPackages == [];
    }
  }

  lemma FirmwareScanIsPresence(os: Os, t: Tree)
    ensures FirmwareFound(t) <==> IsPresent(t, Firmware, os)
  {
    var ms, d := Markers(Firmware, os), SlotDir(Firmware);
    assert ms == ["CMakeLists.txt", "src", "lv_conf.h"];
    if FirmwareFound(t) {
      forall x | x in ms
        ensures Child(d, x) in t
      {
      }
    }
    if IsPresent(t, Firmware, os) {
      assert ms[0] in ms && ms[1] in ms && ms[2] in ms;
    }
  }

  lemma CMakeScanIsPresence(os: Os, t: Tree)
    ensures CMakeFound(t, os) <==> IsPresent(t, CMake, os)
  {
    var ms, d := Markers(CMake, os), SlotDir(CMake);
    assert ms == [CMakeExe(os), "share/cmake-4.1/Modules/CMakeDetermineSystem.cmake"];
    if CMakeFound(t, os) {
      forall x | x in ms
        ensures Child(d, x) in t
      {
      }
    }
    if IsPresent(t, CMake, os) {
      assert ms[0] in ms && ms[1] in ms;
    }
  }

  lemma SdkScanWithinPresence(os: Os, t: Tree)
    ensures IsPresent(t, NrfSdk, os) ==> Child(SlotDir(NrfSdk), SdkHeader) in t
  {
    assert Markers(NrfSdk, os)[0] == SdkHeader;
  }

  lemma ToolchainScanWithinPresence(os: Os, t: Tree)
    ensures IsPresent(t, ArmToolchain, os) ==> Child(SlotDir(ArmToolchain), GccMarker(os)) in t
  {
    assert Markers(ArmToolchain, os)[0] == GccMarker(os);
  }

  /** The scan's firmware and CMake checks are exactly the library checker's presence
      tests; for the SDK and the toolchain, a present slot is never reported missing. */
  lemma {:induction false} ScanAgreesWithPresence(os: Os, t: Tree, run: Interpreter)
    ensures var m := ScanSpec(os, t, run);
      (m.needsNrf52Firmware <==> !IsPresent(t, Firmware, os)) &&
      (m.needsCMake <==> !IsPresent(t, CMake, os)) &&
      (IsPresent(t, NrfSdk, os) ==> !m.needsNrf52Sdk) &&
      (IsPresent(t, ArmToolchain, os) ==> !m.needsArmGnuToolchain)
  {
    FirmwareScanIsPresence(os, t);
    CMakeScanIsPresence(os, t);
    SdkScanWithinPresence(os, t);
    ToolchainScanWithinPresence(os, t);
  }

  /** The LVGL checks differ: the library checker never looks for the image script the
      scan requires, so a slot it accepts may still be reported missing here. */
  lemma LvglChecksDiffer(os: Os, t: Tree, run: Interpreter)
    requires IsPresent(t, Lvgl, os)
    ensures IsPresent(t - {Child(SlotDir(Lvgl), LvglScript)}, Lvgl, os)
    ensures ScanSpec(os, t - {Child(SlotDir(Lvgl), LvglScript)}, run).needsLvgl
  {
    var d, gone := SlotDir(Lvgl), Child(SlotDir(Lvgl), LvglScript);
    var t' := t - {gone};
    assert d != gone by { assert |d| < |gone|; }
    forall m | m in Markers(Lvgl, os)
      ensures Child(d, m) in t'
    {
      assert |m| != |LvglScript|;
    }
  }

  const LvglItem: string := "• LVGL library (~15MB)"
  const SdkItem: string := "• nRF52 SDK (~150MB)"
  const ToolchainItem: string := "• ARM GNU Toolchain (~100MB)"
  const FirmwareItem: string := "• nRF52 LCD Tester Firmware (~1MB)"
  const CMakeItem: string := "• CMake (~40MB)"
  const PythonItem: string := "• Embedded Python distribution (~25MB)"

  /** The line of the permission dialog for each flag, in dialog order, with whether it
      is shown. The packages line is shown only when the interpreter itself is there. */
  function ItemSlots(m: MissingComponents): seq<(bool, string)> {
    [(m.needsLvgl, LvglItem), (m.needsNrf52Sdk, SdkItem), (m.needsArmGnuToolchain, ToolchainItem),
     (m.needsNrf52Firmware, FirmwareItem), (m.needsCMake, CMakeItem), (m.needsPython, PythonItem),
     (m.needsPythonPackages && !m.needsPython, PackagesItem(m.missingPackages))]
  }

  function PackagesItem(missing: seq<string>): string {
    "• Python packages: " + Join(missing, ", ")
  }

  /** The shown lines, in order. */
  function Shown(slots: seq<(bool, string)>): (items: seq<string>)
    ensures |items| <= |slots|
  {
    if slots == [] then []
    else (if slots[0].0 then [slots[0].1] else []) + Shown(slots[1..])
  }

  /** The `missingItems` list of requestUserPermission. */
  function PermissionItems(m: MissingComponents): seq<string> {
    Shown(ItemSlots(m))
  }

  lemma {:induction false} ShownStep(slots: seq<(bool, string)>, i: nat)
    requires i < |slots|
    ensures Shown(slots[i..]) == (if slots[i].0 then [slots[i].1] else []) + Shown(slots[i + 1..])
  {
    assert slots[i..][0] == slots[i] && slots[i..][1..] == slots[i + 1..];
  }

  lemma {:induction false} ShownAppend(a: seq<(bool, string)>, b: seq<(bool, string)>)
    ensures Shown(a + b) == Shown(a) + Shown(b)
    decreases |a|
  {
    if a == [] {
      assert a + b == b;
    } else {
      ShownAppend(a[1..], b);
      TailOfAppend(a, b);
      assert (a + b)[0] == a[0];
      var h := if a[0].0 then [a[0].1] else [];
      calc {
        Shown(a + b);
        h + Shown(a[1..] + b);
        h + (Shown(a[1..]) + Shown(b));
        (h + Shown(a[1..])) + Shown(b);
      }
    }
  }

  /** A line is shown exactly when its flag is set, and the lines keep dialog order. */
  lemma {:induction false} ShownExact(slots: seq<(bool, string)>)
    ensures forall x :: x in Shown(slots) <==> exists i :: 0 <= i < |slots| && slots[i].0 && slots[i].1 == x
    ensures Subsequence(Shown(slots), seq(|slots|, i requires 0 <= i < |slots| => slots[i].1))
    decreases |slots|
  {
    if slots != [] {
      ShownExact(slots[1..]);
      var rest := Shown(slots[1..]);
      var labels := seq(|slots|, i requires 0 <= i < |slots| => slots[i].1);
      var tail := seq(|slots[1..]|, i requires 0 <= i < |slots[1..]| => slots[1..][i].1);
      assert labels[1..] == tail;
      forall x | x in Shown(slots)
        ensures exists i :: 0 <= i < |slots| && slots[i].0 && slots[i].1 == x
      {
        if slots[0].0 && x == slots[0].1 {
        } else {
          var j :| 0 <= j < |slots[1..]| && slots[1..][j].0 && slots[1..][j].1 == x;
          assert slots[j + 1] == slots[1..][j];
        }
      }
      forall x | exists i :: 0 <= i < |slots| && slots[i].0 && slots[i].1 == x
        ensures x in Shown(slots)
      {
        var i :| 0 <= i < |slots| && slots[i].0 && slots[i].1 == x;
        if i > 0 {
          assert slots[1..][i - 1] == slots[i];
        }
      }
      if slots[0].0 {
        assert Shown(slots) == [slots[0].1] + rest;
        assert ([slots[0].1] + rest)[1..] == rest;
      } else {
        assert Shown(slots) == rest;
      }
    }
  }

  /** Nothing is shown exactly when no flag is set. */
  lemma ShownEmpty(slots: seq<(bool, string)>)
    ensures Shown(slots) == [] <==> forall i :: 0 <= i < |slots| ==> !slots[i].0
  {
    ShownExact(slots);
    if Shown(slots) != [] {
      assert Shown(slots)[0] in Shown(slots);
    }
  }

  /** The third character of each line (after the bullet and the space) tells the
      packages line from all the others. */
  lemma ItemHeads(missing: seq<string>)
    ensures LvglItem[2] == 'L' && SdkItem[2] == 'n' && ToolchainItem[2] == 'A'
    ensures FirmwareItem[2] == 'n' && CMakeItem[2] == 'C' && PythonItem[2] == 'E'
    ensures |PackagesItem(missing)| > 2 && PackagesItem(missing)[2] == 'P'
  {
  }

  /** None of the first six lines has the packages line's third character. */
  lemma FrontItemNotPackages(m: MissingComponents, i: nat)
    requires i < 6
    ensures |ItemSlots(m)[i].1| > 2 && ItemSlots(m)[i].1[2] != 'P'
  {
    ItemHeads([]);
  }

  /** The dialog lists nothing exactly when nothing is missing. */
  lemma {:induction false} PermissionItemsEmpty(m: MissingComponents)
    ensures PermissionItems(m) == [] <==> !m.HasAnyMissing()
  {
    var slots := ItemSlots(m);
    ShownEmpty(slots);
    if m.HasAnyMissing() {
      if m.needsLvgl { assert slots[0].0; }
      else if m.needsNrf52Sdk { assert slots[1].0; }
      else if m.needsArmGnuToolchain { assert slots[2].0; }
      else if m.needsNrf52Firmware { assert slots[3].0; }
      else if m.needsCMake { assert slots[4].0; }
      else if m.needsPython { assert slots[5].0; }
      else { assert slots[6].0; }
    }
  }

  /** The packages line, when shown, comes last, and it is shown only when packages are
      missing and the interpreter is present. */
  lemma {:induction false} PackagesLineLast(m: MissingComponents)
    ensures var items := PermissionItems(m);
      (|items| > 0 && items[|items| - 1] == PackagesItem(m.missingPackages)) <==> m.needsPythonPackages && !m.needsPython
  {
    var slots := ItemSlots(m);
    var items := PermissionItems(m);
    var pkg := PackagesItem(m.missingPackages);
    assert slots == slots[..6] + [slots[6]];
    ShownAppend(slots[..6], [slots[6]]);
    ShownStep([slots[6]], 0);
    var front := Shown(slots[..6]);
    if m.needsPythonPackages && !m.needsPython {
      assert items == front + [pkg];
    } else {
      assert items == front;
      if |items| > 0 {
        var last := items[|items| - 1];
        ShownExact(slots[..6]);
        assert last in front;
        var i :| 0 <= i < 6 && slots[..6][i].0 && slots[..6][i].1 == last;
        assert last == slots[i].1;
        FrontItemNotPackages(m, i);
        ItemHeads(m.missingPackages);
        assert last != pkg;
      }
    }
  }

  /** The packages line carries the list of missing packages: it names every one of them. */
  lemma PackagesItemNamesThem(missing: seq<string>)
    ensures StartsWith(PackagesItem(missing), "• Python packages: ")
    ensures missing == [] ==> PackagesItem(missing) == "• Python packages: "
    ensures forall i :: 0 <= i < |missing| ==> Contains(PackagesItem(missing), missing[i])
  {
    var s := PackagesItem(missing);
    assert s[..|"• Python packages: "|] == "• Python packages: ";
    forall i | 0 <= i < |missing|
      ensures Contains(s, missing[i])
    {
      JoinContainsEach(missing, ", ", i);
      ContainsPrepend("• Python packages: ", Join(missing, ", "), missing[i]);
    }
  }

  class StartupChecker {
    const cfg: Config
    const disk: Disk
    const libraryChecker: LibraryChecker
    /** The checker's own interpreter manager, separate from the library checker's. */
    const python: EmbeddedPython

    predicate Valid()
      reads this, libraryChecker
    {
      libraryChecker.Valid() && libraryChecker.cfg == cfg && libraryChecker.disk == disk &&
      python.disk == disk && python.os == cfg.os && python != libraryChecker.python
    }

    constructor (cfg: Config, disk: Disk)
      ensures this.cfg == cfg && this.disk == disk && Valid()
      ensures fresh(libraryChecker) && fresh(python) && fresh(libraryChecker.python)
      ensures !python.setupComplete && !libraryChecker.python.setupComplete
    {
      this.cfg := cfg;
      this.disk := disk;
      libraryChecker := new LibraryChecker(cfg, disk);
      python := new EmbeddedPython(cfg.os, disk);
    }

    /** performStartupCheck: exactly what checkAndDownloadLibraries reports. */
    method PerformStartupCheck(env: Env) returns (ok: bool)
      requires Valid()
      modifies libraryChecker, disk, libraryChecker.python
      ensures Valid()
      ensures var r := CheckSpec(cfg, old(disk.paths), old(disk.text), old(libraryChecker.python.setupComplete), env);
        ok == r.ok && disk.paths == r.paths && disk.text == r.text && libraryChecker.python.setupComplete == r.complete
    {
      var success, _, _, _ := libraryChecker.CheckAndDownloadLibraries(env);
      ok := success;
    }

    /** The package probes of checkAllComponents, in the required order. */
    method ProbePackages(pkgs: seq<string>, run: Interpreter) returns (missing: seq<string>)
      ensures missing == MissingPackages(pkgs, run)
    {
      missing := [];
      var i := 0;
      while i < |pkgs|
        invariant 0 <= i <= |pkgs|
        invariant missing + MissingPackages(pkgs[i..], run) == MissingPackages(pkgs, run)
      {
        MissingPackagesStep(pkgs, i, run);
        ghost var rest := MissingPackages(pkgs[i + 1..], run);
        var testCommand := ImportProbe(pkgs[i]);
        if run(["-c", testCommand]) != 0 {
          AppendAssoc(missing, [pkgs[i]], rest);
          missing := missing + [pkgs[i]];
        } else {
          assert [] + rest == rest;
        }
        i := i + 1;
      }
    }

    /** checkAllComponents. */
    method CheckAllComponents(run: Interpreter) returns (m: MissingComponents)
      requires Valid()
      ensures m == ScanSpec(cfg.os, disk.paths, run)
    {
      var needsLvgl, needsSdk, needsToolchain, needsFirmware, needsCMake := ScanSlots(disk.paths, cfg.os);
      var available, missing := ScanPython(run);
      m := MissingComponents(needsLvgl, !available, missing != [], needsSdk, needsToolchain,
                             needsFirmware, needsCMake, missing);
      ScanSpecFrom(cfg.os, disk.paths, run, m);
    }

    /** The interpreter part of checkAllComponents: the packages are probed only when the
        interpreter is available. */
    method ScanPython(run: Interpreter) returns (available: bool, missing: seq<string>)
      requires Valid()
      ensures available == Available(disk.paths, cfg.os, run)
      ensures missing == if available then MissingPackages(RequiredPackages, run) else []
    {
      available := python.IsAvailable(run);
      missing := [];
      if available {
        missing := ProbePackages(RequiredPackages, run);
      }
    }

    /** requestUserPermission: the lines listed, in order; `accepts` is the user's answer. */
    method RequestUserPermission(m: MissingComponents, accepts: bool) returns (ok: bool, items: seq<string>)
      ensures items == PermissionItems(m) && ok == accepts
    {
      var slots := ItemSlots(m);
      items := [];
      var i := 0;
      while i < |slots|
        invariant 0 <= i <= |slots|
        invariant items + Shown(slots[i..]) == Shown(slots)
      {
        ShownStep(slots, i);
        ghost var rest := Shown(slots[i + 1..]);
        if slots[i].0 {
          AppendAssoc(items, [slots[i].1], rest);
          items := items + [slots[i].1];
        } else {
          assert [] + rest == rest;
        }
        i := i + 1;
      }
      ok := accepts;
    }

    /** The package loop of downloadAndSetupComponents: every package is tried; the
        failures are collected. */
    method InstallMissing(pkgs: seq<string>, run: Interpreter) returns (failed: seq<string>)
      requires Valid()
      ensures failed == FailedInstalls(cfg.os, pkgs, run)
    {
      ghost var os := cfg.os;
      assert python.os == os;
      failed := [];
      var i := 0;
      while i < |pkgs|
        invariant 0 <= i <= |pkgs|
        invariant failed + FailedInstalls(os, pkgs[i..], run) == FailedInstalls(os, pkgs, run)
      {
        FailedInstallsStep(os, pkgs, i, run);
        ghost var rest := FailedInstalls(os, pkgs[i + 1..], run);
        var installed, _ := python.InstallPackage(pkgs[i], run);
        if !installed {
          AppendAssoc(failed, [pkgs[i]], rest);
          failed := failed + [pkgs[i]];
        } else {
          assert [] + rest == rest;
        }
        i := i + 1;
      }
    }

    /** downloadAndSetupComponents: the libraries only when one of them is flagged, then
        either the interpreter or (failing that) the missing packages; success needs
        both parts, each counting as done when not attempted. */
    method DownloadAndSetupComponents(m: MissingComponents, env: Env, pyEnv: SetupEnv) returns (ok: bool)
      requires Valid()
      modifies libraryChecker, disk, libraryChecker.python, python
      ensures Valid()
      ensures var r := ComponentsSpec(cfg, m, old(disk.paths), old(disk.text),
                                      old(libraryChecker.python.setupComplete), old(python.setupComplete), env, pyEnv);
        ok == r.ok && disk.paths == r.paths && disk.text == r.text &&
        libraryChecker.python.setupComplete == r.libraryPythonComplete && python.setupComplete == r.pythonComplete
    {
      var librariesSuccess, pythonSuccess := true, true;
      if m.NeedsLibraries() {
        var success, _, _, _ := libraryChecker.CheckAndDownloadLibraries(env);
        librariesSuccess := success;
      }
      if m.needsPython {
        var success, _ := python.Setup(pyEnv);
        pythonSuccess := success;
      } else if m.needsPythonPackages {
        var failedPythonPackages := InstallMissing(m.missingPackages, pyEnv.run);
        if failedPythonPackages != [] {
          pythonSuccess := false;
        }
      }
      ok := librariesSuccess && pythonSuccess;
    }
  }

  datatype Outcome = Outcome(ok: bool, paths: Tree, text: map<string, string>,
                             libraryPythonComplete: bool, pythonComplete: bool)

  /** downloadAndSetupComponents on the disk `t`; `libComplete` and `pyComplete` are the
      setup flags of the library checker's and the startup checker's interpreter managers. */
  function ComponentsSpec(cfg: Config, m: MissingComponents, t: Tree, text: map<string, string>,
                          libComplete: bool, pyComplete: bool, env: Env, pyEnv: SetupEnv): Outcome
  {
    var r := CheckSpec(cfg, t, text, libComplete, env);
    var libsOk := !m.NeedsLibraries() || r.ok;
    var t1 := if m.NeedsLibraries() then r.paths else t;
    var text1 := if m.NeedsLibraries() then r.text else text;
    var lc := if m.NeedsLibraries() then r.complete else libComplete;
    if m.needsPython then
      var o := SetupSpec(cfg.os, pyComplete, t1, text1, pyEnv);
      Outcome(libsOk && o.ok, o.paths, o.text, lc, o.complete)
    else if m.needsPythonPackages then
      Outcome(libsOk && FailedInstalls(cfg.os, m.missingPackages, pyEnv.run) == [], t1, text1, lc, pyComplete)
    else Outcome(libsOk, t1, text1, lc, pyComplete)
  }

  /** With nothing missing nothing is attempted: success, and nothing changes. */
  lemma NothingMissingNothingDone(cfg: Config, m: MissingComponents, t: Tree, text: map<string, string>,
                                  libComplete: bool, pyComplete: bool, env: Env, pyEnv: SetupEnv)
    requires !m.HasAnyMissing()
    ensures ComponentsSpec(cfg, m, t, text, libComplete, pyComplete, env, pyEnv) ==
      Outcome(true, t, text, libComplete, pyComplete)
  {
  }

  /** A failed library run fails the whole step, whatever the interpreter does. */
  lemma LibraryFailureFails(cfg: Config, m: MissingComponents, t: Tree, text: map<string, string>,
                            libComplete: bool, pyComplete: bool, env: Env, pyEnv: SetupEnv)
    requires m.NeedsLibraries() && !CheckSpec(cfg, t, text, libComplete, env).ok
    ensures !ComponentsSpec(cfg, m, t, text, libComplete, pyComplete, env, pyEnv).ok
  {
  }

  /** When the interpreter is missing its setup takes precedence: the package flag and
      list play no part in the outcome. */
  lemma PythonSetupTakesPrecedence(cfg: Config, m: MissingComponents, t: Tree, text: map<string, string>,
                                   libComplete: bool, pyComplete: bool, env: Env, pyEnv: SetupEnv,
                                   needsPackages: bool, packages: seq<string>)
    requires m.needsPython
    ensures ComponentsSpec(cfg, m, t, text, libComplete, pyComplete, env, pyEnv) ==
      ComponentsSpec(cfg, m.(needsPythonPackages := needsPackages, missingPackages := packages),
                     t, text, libComplete, pyComplete, env, pyEnv)
  {
  }

  /** With the interpreter present and only packages missing, the step succeeds exactly
      when the libraries (if any) and every package install succeed. */
  lemma {:induction false} PackagesDecideWithPython(cfg: Config, m: MissingComponents, t: Tree, text: map<string, string>,
                                                    libComplete: bool, pyComplete: bool, env: Env, pyEnv: SetupEnv)
    requires !m.needsPython && m.needsPythonPackages
    ensures ComponentsSpec(cfg, m, t, text, libComplete, pyComplete, env, pyEnv).ok <==>
      (!m.NeedsLibraries() || CheckSpec(cfg, t, text, libComplete, env).ok) &&
      forall i :: 0 <= i < |m.missingPackages| ==> pyEnv.run(InstallArgs(cfg.os, m.missingPackages[i])) == 0
  {
    FailedInstallsExact(cfg.os, m.missingPackages, pyEnv.run);
  }
}
