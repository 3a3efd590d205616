/** Where each component is fetched from, what the downloaded archive is called, how it
    is unpacked, and the progress figure shown while it downloads. */
module Resolver {
  import opened Text
  import opened Platform
  import opened Presence

  /** The fixed LVGL release archive. */
  const LvglUrl: string := "https://github.com/lvgl/lvgl/archive/refs/tags/v9.3.0.zip"

  /** Download locations whose values are compile-time constants of the tool: the SDK
      archive, the toolchain and CMake base URLs, and the firmware repository prefix. */
  datatype Sources = Sources(sdkUrl: string, toolchainBase: string, cmakeBase: string, firmwareRepo: string)

  const WindowsToolchainSuffix: string := "mingw-w64-i686-arm-none-eabi.zip"
  const MacArmToolchainSuffix: string := "darwin-arm64-arm-none-eabi.tar.xz"
  const MacIntelToolchainSuffix: string := "darwin-x86_64-arm-none-eabi.tar.xz"
  const LinuxToolchainSuffix: string := "x86_64-arm-none-eabi.tar.xz"
  const WindowsCMakeSuffix: string := "windows-x86_64" + ".zip"
  const MacCMakeSuffix: string := "macos-universal" + ".tar.gz"
  const LinuxCMakeSuffix: string := "linux-x86_64" + ".tar.gz"

  /** The platform part of the toolchain archive name; `arch` is the CPU architecture
      reported at run time (only consulted on macOS). */
  function ToolchainSuffix(os: Os, arch: string): string {
    match os
    case Windows => WindowsToolchainSuffix
    case MacOS => if arch == "arm64" || arch == "aarch64" then MacArmToolchainSuffix else MacIntelToolchainSuffix
    case _ => LinuxToolchainSuffix
  }

  lemma WindowsToolchainIsZip()
    ensures EndsWith(WindowsToolchainSuffix, ".zip")
  {
    var s := WindowsToolchainSuffix;
    assert s[|s| - 4..] == ".zip";
  }

  lemma MacArmToolchainIsArm()
    ensures StartsWith(MacArmToolchainSuffix, "darwin-arm64-")
    ensures EndsWith(MacArmToolchainSuffix, ".tar.xz") && !EndsWith(MacArmToolchainSuffix, ".zip")
  {
    var s := MacArmToolchainSuffix;
    assert s[..13] == "darwin-arm64-";
    XzNotZip(s);
  }

  lemma MacIntelToolchainIsNotArm()
    ensures !StartsWith(MacIntelToolchainSuffix, "darwin-arm64-")
    ensures EndsWith(MacIntelToolchainSuffix, ".tar.xz") && !EndsWith(MacIntelToolchainSuffix, ".zip")
  {
    var s := MacIntelToolchainSuffix;
    assert s[7] == 'x';
    StartsWithAt(s, "darwin-arm64-", 7);
    XzNotZip(s);
  }

  lemma LinuxToolchainIsTar()
    ensures EndsWith(LinuxToolchainSuffix, ".tar.xz") && !EndsWith(LinuxToolchainSuffix, ".zip")
  {
    XzNotZip(LinuxToolchainSuffix);
  }

  /** Windows alone gets a zip; macOS picks the arm64 build exactly for "arm64" and
      "aarch64"; Linux and unknown platforms share the Linux build. */
  lemma {:induction false} ToolchainSuffixTable(os: Os, arch: string)
    ensures var s := ToolchainSuffix(os, arch);
      (os == Windows <==> EndsWith(s, ".zip")) &&
      (os != Windows ==> EndsWith(s, ".tar.xz")) &&
      (os == MacOS ==> (StartsWith(s, "darwin-arm64-") <==> arch == "arm64" || arch == "aarch64")) &&
      (os == Linux || os == OtherOs ==> s == LinuxToolchainSuffix)
  {
    match os
    case Windows => WindowsToolchainIsZip();
    case MacOS => MacArmToolchainIsArm(); MacIntelToolchainIsNotArm();
    case _ => LinuxToolchainIsTar();
  }

  /** A name ending in ".tar.xz" does not end in ".zip". */
  lemma XzNotZip(s: string)
    requires |s| >= 7 && s[|s| - 7..] == ".tar.xz"
    ensures EndsWith(s, ".tar.xz") && !EndsWith(s, ".zip")
  {
    LastCharsDiffer(s, ".tar.xz", ".zip");
  }

  /** A name ending in ".tar.gz" does not end in ".zip". */
  lemma GzNotZip(s: string)
    requires EndsWith(s, ".tar.gz")
    ensures EndsWith(s, ".tar.gz") && !EndsWith(s, ".zip")
  {
    LastCharsDiffer(s, ".tar.gz", ".zip");
  }

  lemma CMakeSuffixesEnd()
    ensures EndsWith(WindowsCMakeSuffix, ".zip")
    ensures EndsWith(MacCMakeSuffix, ".tar.gz") && !EndsWith(MacCMakeSuffix, ".zip")
    ensures EndsWith(LinuxCMakeSuffix, ".tar.gz") && !EndsWith(LinuxCMakeSuffix, ".zip")
  {
    EndsWithAppend("windows-x86_64", ".zip", ".zip");
    EndsWithAppend("macos-universal", ".tar.gz", ".tar.gz");
    GzNotZip(MacCMakeSuffix);
    EndsWithAppend("linux-x86_64", ".tar.gz", ".tar.gz");
    GzNotZip(LinuxCMakeSuffix);
  }

  /** The platform part of the CMake archive name. */
  function CMakeSuffix(os: Os): (s: string)
    ensures os == Windows <==> EndsWith(s, ".zip")
    ensures os != Windows ==> EndsWith(s, ".tar.gz")
    ensures os == Linux || os == OtherOs ==> s == LinuxCMakeSuffix
  {
    CMakeSuffixesEnd();
    match os
    case Windows => WindowsCMakeSuffix
    case Linux => LinuxCMakeSuffix
    case MacOS => MacCMakeSuffix
    case OtherOs => LinuxCMakeSuffix
  }

  /** The archive URL of every component except the firmware, whose URL comes from the
      release list (FirmwareUrl). */
  function ArchiveUrl(k: Kind, os: Os, arch: string, src: Sources): string
    requires k != Firmware
  {
    match k
    case Lvgl => LvglUrl
    case NrfSdk => src.sdkUrl
    case ArmToolchain => src.toolchainBase + ToolchainSuffix(os, arch)
    case CMake => src.cmakeBase + CMakeSuffix(os)
  }

  /** The release list as parsed from the tags endpoint: either not a JSON array, or the
      `name` of each element as text ("" when the element has none). */
  datatype TagsDoc = NotAnArray | TagArray(names: seq<string>)

  /** The tags request: whether it completed without a network error, and its body. */
  datatype TagsReply = TagsReply(ok: bool, doc: TagsDoc)

  /** The firmware archive URL built from the newest tag; "" when there is none. */
  function FirmwareUrl(repo: string, reply: TagsReply): (url: string)
    ensures url != "" <==>
      reply.ok && reply.doc.TagArray? && |reply.doc.names| > 0 && reply.doc.names[0] != ""
    ensures url != "" ==>
      |url| == |repo| + |reply.doc.names[0]| + 4 && StartsWith(url, repo) && EndsWith(url, ".zip") &&
      url[|repo|..|url| - 4] == reply.doc.names[0]
  {
    if reply.ok && reply.doc.TagArray? && |reply.doc.names| > 0 && reply.doc.names[0] != "" then
      var url := repo + reply.doc.names[0] + ".zip";
      assert url[..|repo|] == repo;
      assert url[|repo|..|url| - 4] == reply.doc.names[0];
      url
    else ""
  }

  /** Only the newest tag decides the firmware URL: later elements of the list never matter. */
  lemma {:induction false} FirmwareUrlUsesNewestTag(repo: string, ok: bool, names1: seq<string>, names2: seq<string>)
    requires |names1| > 0 && |names2| > 0 && names1[0] == names2[0]
    ensures FirmwareUrl(repo, TagsReply(ok, TagArray(names1))) == FirmwareUrl(repo, TagsReply(ok, TagArray(names2)))
  {
    var u1, u2 := FirmwareUrl(repo, TagsReply(ok, TagArray(names1))), FirmwareUrl(repo, TagsReply(ok, TagArray(names2)));
    if u1 != "" && u2 != "" {
      assert u1 == u1[..|repo|] + u1[|repo|..|u1| - 4] + u1[|u1| - 4..];
      assert u2 == u2[..|repo|] + u2[|repo|..|u2| - 4] + u2[|u2| - 4..];
    }
  }

  /** The extension of the temporary file the archive is saved to: toolchain and CMake
      follow their URL (".zip" or a tar flavour), everything else is a zip. */
  function TempExtension(k: Kind, url: string): (ext: string)
    ensures ext == ".zip" || ext == ".tar.xz" || ext == ".tar.gz"
    ensures ext == ".zip" <==> (k != ArmToolchain && k != CMake) || EndsWith(url, ".zip")
    ensures ext == ".tar.xz" ==> k == ArmToolchain
    ensures ext == ".tar.gz" ==> k == CMake
  {
    match k
    case ArmToolchain => if EndsWith(url, ".zip") then ".zip" else ".tar.xz"
    case CMake => if EndsWith(url, ".zip") then ".zip" else ".tar.gz"
    case _ => ".zip"
  }

  function TempPrefix(k: Kind): string {
    match k
    case Lvgl => "lvgl_"
    case NrfSdk => "nrf5_sdk_"
    case ArmToolchain => "arm_gnu_toolchain_"
    case Firmware => "nrf52_firmware_"
    case CMake => "cmake_"
  }

  /** The temporary download file: in the system temp folder, named after the component
      and the millisecond clock `stamp`. */
  function TempPath(tempDir: string, k: Kind, stamp: nat, url: string): (p: string)
    ensures EndsWith(p, TempExtension(k, url))
  {
    var ext := TempExtension(k, url);
    var p := tempDir + "/" + TempPrefix(k) + NatToString(stamp) + ext;
    assert p[|p| - |ext|..] == ext;
    p
  }

  /** onDownloadFinished: tar for a toolchain ".tar.xz" or a CMake ".tar.gz", zip otherwise. */
  predicate UseTar(k: Kind, tempPath: string) {
    (k == ArmToolchain && EndsWith(tempPath, ".tar.xz")) || (k == CMake && EndsWith(tempPath, ".tar.gz"))
  }

  /** A zip-saved file never dispatches to tar, and a tar-saved file always does. */
  lemma {:induction false} DispatchFollowsExtension(tempDir: string, k: Kind, stamp: nat, url: string)
    ensures UseTar(k, TempPath(tempDir, k, stamp, url)) <==> TempExtension(k, url) != ".zip"
  {
    var p := TempPath(tempDir, k, stamp, url);
    if TempExtension(k, url) == ".zip" {
      LastCharsDiffer(p, ".zip", ".tar.xz");
      LastCharsDiffer(p, ".zip", ".tar.gz");
    }
  }

  /** For the archives the tool actually fetches, tar is used exactly for the toolchain
      and CMake on every platform except Windows. */
  lemma {:induction false} TarExactlyOffWindows(tempDir: string, k: Kind, stamp: nat, os: Os, arch: string, src: Sources)
    requires k != Firmware
    ensures UseTar(k, TempPath(tempDir, k, stamp, ArchiveUrl(k, os, arch, src))) <==>
      (k == ArmToolchain || k == CMake) && os != Windows
  {
    var url := ArchiveUrl(k, os, arch, src);
    DispatchFollowsExtension(tempDir, k, stamp, url);
    if k == ArmToolchain {
      var s := ToolchainSuffix(os, arch);
      ToolchainSuffixTable(os, arch);
      EndsWithAppend(src.toolchainBase, s, ".zip");
    } else if k == CMake {
      var s := CMakeSuffix(os);
      EndsWithAppend(src.cmakeBase, s, ".zip");
    }
  }

  /** The firmware archive is always unpacked as a zip. */
  lemma FirmwareIsZip(tempDir: string, stamp: nat, url: string)
    ensures !UseTar(Firmware, TempPath(tempDir, Firmware, stamp, url))
  {
  }

  /** Multiplying by a non-negative factor keeps the order. */
  lemma MulMono(u: int, v: int, b: int)
    requires u <= v && b >= 0
    ensures u * b <= v * b
  {
    var d := v - u;
    assert v * b == u * b + d * b;
  }

  /** The quotient of a non-negative number brackets it between two multiples of the divisor. */
  lemma DivBracket(a: nat, b: int)
    requires b > 0
    ensures 0 <= a / b
    ensures (a / b) * b <= a < (a / b + 1) * b
  {
    var q, r := a / b, a % b;
    assert a == q * b + r && 0 <= r < b;
    assert (q + 1) * b == q * b + b;
    if q < 0 {
      MulMono(q + 1, 0, b);
    }
  }

  /** Cancelling a positive factor from a strict bound. */
  lemma ScaleBelow(x: int, y: int, b: int)
    requires b > 0 && x * b < (y + 1) * b
    ensures x <= y
  {
    if x > y {
      MulMono(y + 1, x, b);
    }
  }

  /** The progress value shown while downloading; nothing is shown while the total is
      unknown. Byte counts are never negative, so the quotient truncates as C++ does. */
  function Percent(received: nat, total: int): (p: Option<int>)
    ensures p.Some? <==> total > 0
    ensures p.Some? && received <= total ==> 0 <= p.value <= 100
    ensures p.Some? && received == total ==> p.value == 100
    ensures p.Some? ==> p.value * total <= received * 100 < (p.value + 1) * total
  {
    if total > 0 then
      var q := (received * 100) / total;
      DivBracket(received * 100, total);
      if received <= total then
        MulMono(received, total, 100);
        assert q * total < 101 * total;
        ScaleBelow(q, 100, total);
        if received == total then
          ScaleBelow(100, q, total);
          Some(q)
        else Some(q)
      else Some(q)
    else None
  }

  /** More bytes received never shows a smaller percentage. */
  lemma PercentMonotone(r1: nat, r2: nat, total: int)
    requires r1 <= r2 && total > 0
    ensures Percent(r1, total).value <= Percent(r2, total).value
  {
    var p1, p2 := Percent(r1, total).value, Percent(r2, total).value;
    MulMono(r1, r2, 100);
    assert p1 * total <= r1 * 100 <= r2 * 100 < (p2 + 1) * total;
    ScaleBelow(p1, p2, total);
  }
}
