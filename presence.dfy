/** The five library components the tool installs under `libraries/`, and the test
    that decides whether one of them is already installed (LibraryChecker::is*Present). */
module Presence {
  import opened Text
  import opened Platform
  import opened FileTree

  datatype Kind = Lvgl | NrfSdk | ArmToolchain | Firmware | CMake

  /** The libraries folder, relative to the application directory. */
  const LibrariesDir: string := "libraries"

  /** The folder each component is installed into below `libraries/`. */
  function SlotName(k: Kind): (name: string)
    ensures |name| > 0 && '/' !in name
  {
    match k
    case Lvgl => "lvgl"
    case NrfSdk => "nrf5_sdk"
    case ArmToolchain => "arm-gnu-toolchain"
    case Firmware => "nrf52-lcd-tester-fw"
    case CMake => "cmake"
  }

  function SlotDir(k: Kind): string {
    Child(LibrariesDir, SlotName(k))
  }

  /** No two components share a folder. */
  lemma SlotsDistinct(j: Kind, k: Kind)
    requires j != k
    ensures SlotName(j) != SlotName(k) && SlotDir(j) != SlotDir(k)
  {
    assert SlotName(j) == SlotDir(j)[|LibrariesDir| + 1..];
    assert SlotName(k) == SlotDir(k)[|LibrariesDir| + 1..];
  }

  /** The key files checked inside a slot, as written before the Windows adjustment. */
  function BaseMarkers(k: Kind): seq<string> {
    match k
    case Lvgl => ["lvgl.h", "src/core/lv_obj.h", "src/core/lv_obj.c", "lv_conf_template.h"]
    case NrfSdk => ["components/softdevice/s132/headers/nrf_sdm.h",
                    "components/libraries/util/nordic_common.h",
                    "modules/nrfx/nrfx.h",
                    "components/boards/boards.h"]
    case ArmToolchain => ["bin/arm-none-eabi-gcc", "bin/arm-none-eabi-g++",
                          "bin/arm-none-eabi-as", "bin/arm-none-eabi-ld"]
    case Firmware => ["CMakeLists.txt", "src", "lv_conf.h"]
    case CMake => ["bin/cmake", "share/cmake-4.1/Modules/CMakeDetermineSystem.cmake"]
  }

  /** The key files checked inside a slot on `os`: on Windows the executables get ".exe". */
  function Markers(k: Kind, os: Os): seq<string> {
    if os != Windows then BaseMarkers(k)
    else match k
      case ArmToolchain => ["bin/arm-none-eabi-gcc.exe", "bin/arm-none-eabi-g++.exe",
                            "bin/arm-none-eabi-as.exe", "bin/arm-none-eabi-ld.exe"]
      case CMake => ["bin/cmake.exe", "share/cmake-4.1/Modules/CMakeDetermineSystem.cmake"]
      case _ => BaseMarkers(k)
  }

  /** Which markers are executables that Windows names with ".exe". */
  predicate IsExecutableMarker(k: Kind, i: nat) {
    k == ArmToolchain || (k == CMake && i == 0)
  }

  /** On Windows ".exe" goes on all four toolchain markers and on the first CMake
      marker only; elsewhere the lists are used as written. */
  lemma ExeSuffixes(k: Kind, os: Os)
    ensures |Markers(k, os)| == |BaseMarkers(k)|
    ensures forall i :: 0 <= i < |BaseMarkers(k)| ==>
      Markers(k, os)[i] == BaseMarkers(k)[i] + (if os == Windows && IsExecutableMarker(k, i) then ".exe" else "")
  {
  }

  /** A component is present when its slot exists and every key file exists in it. */
  predicate IsPresent(t: Tree, k: Kind, os: Os) {
    SlotDir(k) in t && forall m :: m in Markers(k, os) ==> Child(SlotDir(k), m) in t
  }

  /** The key-file loop: the files in order, stopping at the first one missing. */
  method FirstAbsent(t: Tree, dir: string, markers: seq<string>) returns (firstMissing: Option<nat>)
    ensures firstMissing.None? <==> forall m :: m in markers ==> Child(dir, m) in t
    ensures firstMissing.Some? ==>
      var j := firstMissing.value;
      j < |markers| && Child(dir, markers[j]) !in t &&
      forall i :: 0 <= i < j ==> Child(dir, markers[i]) in t
  {
    var i := 0;
    while i < |markers|
      invariant 0 <= i <= |markers|
      invariant forall j :: 0 <= j < i ==> Child(dir, markers[j]) in t
    {
      if Child(dir, markers[i]) !in t {
        return Some(i);
      }
      i := i + 1;
    }
    return None;
  }

  /** The early-exit check of one slot: the folder first, then the key files in order,
      stopping at the first one missing (which `firstMissing` reports). */
  method ScanPresent(t: Tree, k: Kind, os: Os) returns (present: bool, firstMissing: Option<nat>)
    ensures present <==> IsPresent(t, k, os)
    ensures firstMissing.Some? <==> SlotDir(k) in t && !present
    ensures firstMissing.Some? ==>
      var j := firstMissing.value;
      j < |Markers(k, os)| && Child(SlotDir(k), Markers(k, os)[j]) !in t &&
      forall i :: 0 <= i < j ==> Child(SlotDir(k), Markers(k, os)[i]) in t
  {
    var dir := SlotDir(k);
    if dir !in t {
      return false, None;
    }
    firstMissing := FirstAbsent(t, dir, Markers(k, os));
    present := firstMissing.None?;
  }
}
