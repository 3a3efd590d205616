/** What unpacking a downloaded archive does to the libraries folder
    (LibraryChecker::extractZipFile and extractTarFile): which top-level folder becomes the
    component's slot, when the archive is deleted, and what counts as success. */
module Extraction {
  import opened Text
  import opened Platform
  import opened FileTree
  import opened Presence

  /** What the unpacking tool did: its exit code, its standard error, the paths it wrote,
      and the folders then found at the top of the folder it unpacked into, in the order
      the directory listing returns them (by name, ignoring case). */
  datatype ToolRun = ToolRun(exitCode: int, stderr: string, unpacked: Tree, listing: seq<string>)

  /** Success, the disk afterwards, and whether the downloaded archive was deleted. */
  datatype Extracted = Extracted(ok: bool, tree: Tree, archiveRemoved: bool)

  /** The first entry a matcher accepts. */
  function FirstMatch(entries: seq<string>, matches: string -> bool): (r: Option<nat>)
    ensures r.Some? ==>
      r.value < |entries| && matches(entries[r.value]) && (forall j :: 0 <= j < r.value ==> !matches(entries[j]))
    ensures r.None? ==> forall j :: 0 <= j < |entries| ==> !matches(entries[j])
  {
    if entries == [] then None
    else if matches(entries[0]) then Some(0)
    else match FirstMatch(entries[1..], matches)
      case None => None
      case Some(i) => Some(i + 1)
  }

  /** Two matchers that agree on every name pick the same entry. */
  lemma {:induction false} FirstMatchSame(entries: seq<string>, m1: string -> bool, m2: string -> bool)
    requires forall e :: m1(e) == m2(e)
    ensures FirstMatch(entries, m1) == FirstMatch(entries, m2)
  {
    if entries != [] {
      FirstMatchSame(entries[1..], m1, m2);
    }
  }

  /** The short scratch folder the Windows unpacker writes into, named after the clock. */
  function ScratchDir(stamp: nat): string {
    "C:/Temp/lcd_extract_" + NatToString(stamp)
  }

  /** Whether the Windows unpacker's error output reports a failure (it may exit 0 anyway). */
  predicate ReportsError(stderr: string) {
    ContainsIgnoringCase(stderr, "Exception") || ContainsIgnoringCase(stderr, "Error") ||
    ContainsIgnoringCase(stderr, "cannot access")
  }

  /** Where the zip is unpacked: the scratch folder on Windows, `libraries/` elsewhere. */
  function ZipDir(os: Os, stamp: nat): string {
    if os == Windows then ScratchDir(stamp) else LibrariesDir
  }

  /** Which top-level folder of a zip belongs to each component. */
  predicate ZipMatch(k: Kind, entry: string) {
    match k
    case Lvgl => StartsWith(entry, "lvgl-")
    case NrfSdk => StartsWith(entry, "nRF5_SDK_") || StartsWith(entry, "nrf5_sdk_") || entry == "nRF5_SDK_17.1.0_ddde560"
    case ArmToolchain => StartsWith(entry, "arm-gnu-toolchain-")
    case Firmware => StartsWith(entry, "nrf52-lcd-tester-fw")
    case CMake => StartsWith(entry, "cmake-")
  }

  /** The entry that is the slot itself: outside Windows the listing is of `libraries/`,
      so an existing slot folder shows up among the entries. */
  predicate IsTarget(os: Os, k: Kind, entry: string) {
    os != Windows && entry == SlotName(k)
  }

  /** Only the firmware prefix also matches the slot's own name. */
  lemma {:induction false} OnlyFirmwareMatchesItsSlot(k: Kind)
    ensures ZipMatch(k, SlotName(k)) <==> k == Firmware
  {
    match k
    case Lvgl => assert |SlotName(k)| < |"lvgl-"|;
    case NrfSdk =>
      assert !StartsWith(SlotName(k), "nRF5_SDK_");
      assert !StartsWith(SlotName(k), "nrf5_sdk_");
    case ArmToolchain => assert !StartsWith(SlotName(k), "arm-gnu-toolchain-");
    case Firmware => assert SlotName(k)[..19] == "nrf52-lcd-tester-fw";
    case CMake => assert !StartsWith(SlotName(k), "cmake-");
  }

  /** The Windows scratch folder is removed on every way out. */
  function Cleanup(os: Os, stamp: nat, t: Tree): Tree {
    if os == Windows then RemoveTree(t, ScratchDir(stamp)) else t
  }

  /** Unpacking a zip with a given rule for picking the top-level folder:
      - the tool must exit 0 and, on Windows, report no error;
      - the first matching folder replaces the slot (which is deleted first);
      - success then needs the slot to exist and hold something, and only then is the
        archive deleted; a refused move fails and keeps the archive;
      - with no matching folder the archive is deleted and the result is success. */
  function ZipExtractWith(os: Os, t: Tree, k: Kind, stamp: nat, tool: ToolRun, allowed: bool,
                          matches: string -> bool): (r: Extracted)
    ensures r.archiveRemoved == r.ok
  {
    var dir := ZipDir(os, stamp);
    var t1 := (if os == Windows then t + {dir} else t) + tool.unpacked;
    if tool.exitCode == 0 && !(os == Windows && ReportsError(tool.stderr)) then
      match FirstMatch(tool.listing, matches)
      case None => Extracted(true, Cleanup(os, stamp, t1), true)
      case Some(i) =>
        var final := SlotDir(k);
        var t2 := RemoveTree(t1, final);
        var from := Child(dir, tool.listing[i]);
        if CanRename(t2, from, final, allowed) then
          var t3 := Moved(t2, from, final);
          var ok := final in t3 && HasChildren(os, t3, final);
          Extracted(ok, Cleanup(os, stamp, t3), ok)
        else Extracted(false, Cleanup(os, stamp, t2), false)
    else Extracted(false, Cleanup(os, stamp, t1), false)
  }

  /** The folder-picking rule as the tool has it. */
  function ZipExtractAsWritten(os: Os, t: Tree, k: Kind, stamp: nat, tool: ToolRun, allowed: bool): Extracted {
    ZipExtractWith(os, t, k, stamp, tool, allowed, e => ZipMatch(k, e))
  }

  /** The folder-picking rule with the slot's own folder passed over (see the finding in
      the README); the rest of the model uses this one. */
  predicate ZipCandidate(os: Os, k: Kind, entry: string) {
    ZipMatch(k, entry) && !IsTarget(os, k, entry)
  }

  /** The corrected rule as the predicate FirstMatch takes. */
  function Candidate(os: Os, k: Kind): string -> bool {
    e => ZipCandidate(os, k, e)
  }

  function ZipExtract(os: Os, t: Tree, k: Kind, stamp: nat, tool: ToolRun, allowed: bool): Extracted {
    ZipExtractWith(os, t, k, stamp, tool, allowed, Candidate(os, k))
  }

  /** Only firmware on a non-Windows platform can tell the two rules apart. */
  lemma {:induction false} RulesAgreeElsewhere(os: Os, t: Tree, k: Kind, stamp: nat, tool: ToolRun, allowed: bool)
    requires os == Windows || k != Firmware
    ensures ZipExtract(os, t, k, stamp, tool, allowed) == ZipExtractAsWritten(os, t, k, stamp, tool, allowed)
  {
    OnlyFirmwareMatchesItsSlot(k);
    FirstMatchSame(tool.listing, Candidate(os, k), e => ZipMatch(k, e));
  }

  lemma FirstCharsApart(p: string, a: string, b: string)
    requires |a| > 0 && |b| > 0 && a[0] != b[0] && StartsWith(p, a)
    ensures !StartsWith(p, b)
  {
    StartsWithAt(p, a, 0);
    StartsWithAt(p, b, 0);
  }

  /** Nothing inside `libraries/` lies in the Windows scratch folder, and the other way round. */
  lemma ScratchApart(p: string, stamp: nat)
    ensures StartsWith(p, LibrariesDir + "/") ==> !Under(p, ScratchDir(stamp))
  {
    StartsWithAt(p, LibrariesDir + "/", 0);
    UnderHead(p, ScratchDir(stamp));
  }

  /** The Windows scratch folder never survives an unpack. */
  lemma {:induction false} ScratchAlwaysRemoved(t: Tree, k: Kind, stamp: nat, tool: ToolRun, allowed: bool,
                                                matches: string -> bool)
    ensures forall p :: p in ZipExtractWith(Windows, t, k, stamp, tool, allowed, matches).tree ==>
      !Under(p, ScratchDir(stamp))
  {
  }

  /** A tool failure (or, on Windows, an error report) fails the unpack and keeps the archive. */
  lemma ZipRefusesToolFailure(os: Os, t: Tree, k: Kind, stamp: nat, tool: ToolRun, allowed: bool,
                              matches: string -> bool)
    requires tool.exitCode != 0 || (os == Windows && ReportsError(tool.stderr))
    ensures !ZipExtractWith(os, t, k, stamp, tool, allowed, matches).ok
    ensures !ZipExtractWith(os, t, k, stamp, tool, allowed, matches).archiveRemoved
  {
  }

  /** When a folder was picked, success means the slot is installed and not empty. */
  lemma {:induction false} ZipSuccessInstalls(os: Os, t: Tree, k: Kind, stamp: nat, tool: ToolRun, allowed: bool,
                                              matches: string -> bool)
    requires FirstMatch(tool.listing, matches).Some?
    requires ZipExtractWith(os, t, k, stamp, tool, allowed, matches).ok
    ensures var r := ZipExtractWith(os, t, k, stamp, tool, allowed, matches);
      SlotDir(k) in r.tree && HasChildren(os, r.tree, SlotDir(k))
  {
    var dir := ZipDir(os, stamp);
    var t1 := (if os == Windows then t + {dir} else t) + tool.unpacked;
    var i := FirstMatch(tool.listing, matches).value;
    var final := SlotDir(k);
    var t2 := RemoveTree(t1, final);
    var t3 := Moved(t2, Child(dir, tool.listing[i]), final);
    var q :| q in t3 && ListedBelow(os, q, final);
    assert StartsWith(q, LibrariesDir + "/") by {
      assert q[..|LibrariesDir| + 1] == (final + "/")[..|LibrariesDir| + 1];
    }
    assert StartsWith(final, LibrariesDir + "/") by {
      assert final[..|LibrariesDir| + 1] == LibrariesDir + "/";
    }
    ScratchApart(q, stamp);
    ScratchApart(final, stamp);
  }

  /** The picked folder and the slot are distinct places that do not contain each other. */
  lemma {:induction false} PickedApartFromSlot(os: Os, k: Kind, stamp: nat, e: string, q: string)
    requires '/' !in e && !IsTarget(os, k, e)
    ensures !Under(Child(ZipDir(os, stamp), e), SlotDir(k))
    ensures !StartsWith(SlotDir(k), Child(ZipDir(os, stamp), e) + "/")
    ensures StartsWith(q, Child(ZipDir(os, stamp), e) + "/") ==> !Under(q, SlotDir(k))
  {
    var from, final := Child(ZipDir(os, stamp), e), SlotDir(k);
    if os == Windows {
      // Paths in the scratch folder start with 'C', those in `libraries/` with 'l'.
      assert from[0] == 'C' && final[0] == 'l';
      UnderHead(from, final);
      StartsWithAt(final, from + "/", 0);
      StartsWithAt(q, from + "/", 0);
      UnderHead(q, final);
    } else {
      if Under(from, final) {
        ChildUnderSibling(LibrariesDir, e, SlotName(k));
      }
      if Under(final, from) {
        ChildUnderSibling(LibrariesDir, SlotName(k), e);
      }
      if StartsWith(q, from + "/") && StartsWith(q, final + "/") {
        ChildrenApart(q, LibrariesDir, e, SlotName(k));
      }
    }
  }

  /** The promise of the corrected rule: when the folder it picks exists with content and
      the platform allows the move, the component ends up installed and the archive is deleted. */
  lemma {:induction false} ZipExtractSucceeds(os: Os, t: Tree, k: Kind, stamp: nat, tool: ToolRun, allowed: bool)
    requires tool.exitCode == 0 && !(os == Windows && ReportsError(tool.stderr)) && allowed
    requires FirstMatch(tool.listing, Candidate(os, k)).Some?
    requires var e := tool.listing[FirstMatch(tool.listing, Candidate(os, k)).value];
      var t1 := (if os == Windows then t + {ZipDir(os, stamp)} else t) + tool.unpacked;
      '/' !in e && Child(ZipDir(os, stamp), e) in t1 && HasChildren(os, t1, Child(ZipDir(os, stamp), e))
    ensures var r := ZipExtract(os, t, k, stamp, tool, allowed);
      r.ok && r.archiveRemoved && SlotDir(k) in r.tree && HasChildren(os, r.tree, SlotDir(k))
  {
    var m: string -> bool := Candidate(os, k);
    var dir := ZipDir(os, stamp);
    var t1 := (if os == Windows then t + {dir} else t) + tool.unpacked;
    var i := FirstMatch(tool.listing, m).value;
    var e := tool.listing[i];
    assert !IsTarget(os, k, e);
    var from, final := Child(dir, e), SlotDir(k);
    var t2 := RemoveTree(t1, final);
    var q :| q in t1 && ListedBelow(os, q, from);
    PickedApartFromSlot(os, k, stamp, e, q);
    assert from in t2 && q in t2;
    assert CanRename(t2, from, final, allowed);
    MovedLands(t2, from, final);
    MovedChildren(os, t2, from, final);
    ZipSuccessInstalls(os, t, k, stamp, tool, allowed, m);
  }

  /** Which top-level folder of a tar belongs to each component: only the toolchain and
      CMake are ever unpacked this way. */
  predicate TarMatch(k: Kind, entry: string) {
    (k == ArmToolchain && StartsWith(entry, "arm-gnu-toolchain-")) || (k == CMake && StartsWith(entry, "cmake-"))
  }

  /** Unpacking a tar into `libraries/`: on exit code 0 the archive is always deleted and
      the result is the outcome of moving the first matching folder into the slot (with no
      check that anything arrived), or success when nothing matches; otherwise failure with
      the archive kept. */
  function TarExtract(t: Tree, k: Kind, tool: ToolRun, allowed: bool): (r: Extracted)
    ensures r.archiveRemoved <==> tool.exitCode == 0
    ensures r.ok ==> r.archiveRemoved
  {
    var t1 := t + tool.unpacked;
    if tool.exitCode == 0 then
      match FirstMatch(tool.listing, e => TarMatch(k, e))
      case None => Extracted(true, t1, true)
      case Some(i) =>
        var final := SlotDir(k);
        var t2 := RemoveTree(t1, final);
        var from := Child(LibrariesDir, tool.listing[i]);
        Extracted(CanRename(t2, from, final, allowed), Rename(t2, from, final, allowed), true)
    else Extracted(false, t1, false)
  }

  /** The tar prefixes end in '-', so a slot folder is never picked. */
  lemma TarNeverPicksSlot(k: Kind, e: string)
    requires TarMatch(k, e)
    ensures e != SlotName(k)
  {
    if k == ArmToolchain {
      assert |SlotName(k)| < |"arm-gnu-toolchain-"|;
    } else {
      assert |SlotName(k)| < |"cmake-"|;
    }
  }

  /** Components other than the toolchain and CMake pick nothing from a tar: the result is
      just the tool's exit status. */
  lemma TarIgnoresOtherKinds(t: Tree, k: Kind, tool: ToolRun, allowed: bool)
    requires k != ArmToolchain && k != CMake
    ensures TarExtract(t, k, tool, allowed) == Extracted(tool.exitCode == 0, t + tool.unpacked, tool.exitCode == 0)
  {
    assert FirstMatch(tool.listing, e => TarMatch(k, e)) == None;
  }

  /** Unlike the zip path, a tar whose picked folder lists nothing still succeeds: the
      slot ends up listing nothing. */
  lemma {:induction false} TarAcceptsEmptyFolder(os: Os, t: Tree, k: Kind, tool: ToolRun)
    requires tool.exitCode == 0 && FirstMatch(tool.listing, e => TarMatch(k, e)).Some?
    requires var e := tool.listing[FirstMatch(tool.listing, e => TarMatch(k, e)).value];
      '/' !in e && Child(LibrariesDir, e) in t + tool.unpacked && !HasChildren(os, t + tool.unpacked, Child(LibrariesDir, e))
    ensures var r := TarExtract(t, k, tool, true);
      r.ok && SlotDir(k) in r.tree && !HasChildren(os, r.tree, SlotDir(k))
  {
    var t1 := t + tool.unpacked;
    var i := FirstMatch(tool.listing, e => TarMatch(k, e)).value;
    var e := tool.listing[i];
    TarNeverPicksSlot(k, e);
    var from, final := Child(LibrariesDir, e), SlotDir(k);
    var t2 := RemoveTree(t1, final);
    if Under(from, final) {
      ChildUnderSibling(LibrariesDir, e, SlotName(k));
    }
    if Under(final, from) {
      ChildUnderSibling(LibrariesDir, SlotName(k), e);
    }
    assert from in t2;
    assert !HasChildren(os, t2, from);
    MovedLands(t2, from, final);
    MovedChildren(os, t2, from, final);
  }

  /** The same situation through the zip path fails and keeps the archive. */
  lemma {:induction false} ZipRejectsEmptyFolder(os: Os, t: Tree, k: Kind, stamp: nat, tool: ToolRun, allowed: bool)
    requires tool.exitCode == 0 && !(os == Windows && ReportsError(tool.stderr))
    requires FirstMatch(tool.listing, Candidate(os, k)).Some?
    requires var e := tool.listing[FirstMatch(tool.listing, Candidate(os, k)).value];
      var t1 := (if os == Windows then t + {ZipDir(os, stamp)} else t) + tool.unpacked;
      '/' !in e && !HasChildren(os, t1, Child(ZipDir(os, stamp), e))
    ensures !ZipExtract(os, t, k, stamp, tool, allowed).ok
    ensures !ZipExtract(os, t, k, stamp, tool, allowed).archiveRemoved
  {
    var m: string -> bool := Candidate(os, k);
    var dir := ZipDir(os, stamp);
    var t1 := (if os == Windows then t + {dir} else t) + tool.unpacked;
    var e := tool.listing[FirstMatch(tool.listing, m).value];
    var from, final := Child(dir, e), SlotDir(k);
    var t2 := RemoveTree(t1, final);
    if CanRename(t2, from, final, allowed) {
      assert !HasChildren(os, t2, from);
      MovedChildren(os, t2, from, final);
    }
  }

  /** Outside Windows an entry whose name begins with '.' is hidden from the contents
      check: an LVGL zip whose folder holds nothing but `.gitignore` fails and keeps the
      archive, however the move goes. */
  const HiddenOnlyName: string := "lvgl-" + "9.2.0"
  const HiddenOnlyRun: ToolRun := ToolRun(0, "", {LibrariesDir + "/" + HiddenOnlyName,
                                                  (LibrariesDir + "/" + HiddenOnlyName) + "/" + ".gitignore"},
                                          [HiddenOnlyName])

  lemma HiddenOnlyFolderRejected(t: Tree, stamp: nat, allowed: bool)
    requires !HasChildren(Linux, t, Child(LibrariesDir, HiddenOnlyName))
    ensures !ZipExtract(Linux, t, Lvgl, stamp, HiddenOnlyRun, allowed).ok
    ensures !ZipExtract(Linux, t, Lvgl, stamp, HiddenOnlyRun, allowed).archiveRemoved
  {
    var e := HiddenOnlyName;
    var from := Child(LibrariesDir, e);
    var hidden := from + "/" + ".gitignore";
    assert e[..5] == "lvgl-";
    assert e != SlotName(Lvgl);
    assert FirstMatch(HiddenOnlyRun.listing, Candidate(Linux, Lvgl)) == Some(0);
    assert hidden[|from| + 1] == '.';
    assert !HasChildren(Linux, HiddenOnlyRun.unpacked, from);
    ZipRejectsEmptyFolder(Linux, t, Lvgl, stamp, HiddenOnlyRun, allowed);
  }

  /** The finding: an incomplete firmware slot left by an earlier run, next to a freshly
      unpacked release folder. The folder-picking rule as written picks the slot itself,
      deletes it, then cannot move it: the unpack fails and the release is not installed. */
  const StaleSlotDisk: Tree := {"libraries", "libraries/nrf52-lcd-tester-fw",
                                "libraries/nrf52-lcd-tester-fw/CMakeLists.txt"}
  const ReleaseName: string := "nrf52-lcd-tester-fw" + "-1.4.0"
  const FreshRelease: ToolRun := ToolRun(0, "", {LibrariesDir + "/" + ReleaseName,
                                                 (LibrariesDir + "/" + ReleaseName) + "/" + "src"},
                                         ["nrf52-lcd-tester-fw", ReleaseName])

  lemma FirmwareSelfMatchAsWritten()
    ensures var r := ZipExtractAsWritten(Linux, StaleSlotDisk, Firmware, 0, FreshRelease, true);
      !r.ok && !r.archiveRemoved && SlotDir(Firmware) !in r.tree
  {
    var m: string -> bool := e => ZipMatch(Firmware, e);
    assert FreshRelease.listing[0][..19] == "nrf52-lcd-tester-fw";
    assert FirstMatch(FreshRelease.listing, m) == Some(0);
  }

  /** The corrected rule passes over a slot folder listed ahead of the release folder and
      installs the release, whatever else is on the disk. */
  lemma {:induction false} StaleSlotPassedOver(t: Tree, stamp: nat, tool: ToolRun, e: string)
    requires tool.exitCode == 0 && tool.listing == [SlotName(Firmware), e]
    requires ZipMatch(Firmware, e) && e != SlotName(Firmware) && '/' !in e
    requires Child(LibrariesDir, e) in tool.unpacked && HasChildren(Linux, tool.unpacked, Child(LibrariesDir, e))
    ensures var r := ZipExtract(Linux, t, Firmware, stamp, tool, true);
      r.ok && r.archiveRemoved && HasChildren(Linux, r.tree, SlotDir(Firmware))
  {
    var m: string -> bool := Candidate(Linux, Firmware);
    assert !m(tool.listing[0]) && m(tool.listing[1]);
    assert FirstMatch(tool.listing[1..], m) == Some(0);
    var q :| q in tool.unpacked && ListedBelow(Linux, q, Child(LibrariesDir, e));
    assert HasChildren(Linux, t + tool.unpacked, Child(LibrariesDir, e));
    ZipExtractSucceeds(Linux, t, Firmware, stamp, tool, true);
  }

  /** The corrected rule installs the release on that disk, and indeed on any disk. */
  lemma FirmwareSelfMatchCorrected(t: Tree)
    ensures var r := ZipExtract(Linux, t, Firmware, 0, FreshRelease, true);
      r.ok && r.archiveRemoved && HasChildren(Linux, r.tree, SlotDir(Firmware))
  {
    var e, fw := ReleaseName, "nrf52-lcd-tester-fw";
    var from := Child(LibrariesDir, e);
    var src := from + "/" + "src";
    assert src[..|from| + 1] == from + "/";
    assert src in FreshRelease.unpacked;
    assert src[|from| + 1] == 's';
    assert e[..|fw|] == fw;
    assert |e| != |fw|;
    StaleSlotPassedOver(t, 0, FreshRelease, e);
  }
}
