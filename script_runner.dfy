/** The image conversion front end (LVGLScriptRunner): each selected image is run
    through LVGL's converter script, and the successful ones are listed in a generated
    header and array file. */
module ScriptRunner {
  import opened Text
  import opened Platform
  import opened FileTree
  import opened Presence
  import opened PortablePython

  /** getLVGLScriptPath: the converter inside the LVGL slot. */
  const ScriptPath: string := LibrariesDir + "/lvgl/scripts/LVGLImage.py"

  lemma ScriptInLvglSlot()
    ensures StartsWith(ScriptPath, SlotDir(Lvgl) + "/")
  {
    assert ScriptPath[..|SlotDir(Lvgl) + "/"|] == SlotDir(Lvgl) + "/";
  }

  /** QFileInfo::fileName: the path after its last '/'. */
  function FileName(p: string): string
    decreases |p|
  {
    if p == [] || p[|p| - 1] == '/' then [] else FileName(p[..|p| - 1]) + [p[|p| - 1]]
  }

  /** The file name is the longest tail of the path free of '/'. */
  lemma {:induction false} FileNameIsLastComponent(p: string)
    ensures '/' !in FileName(p) && EndsWith(p, FileName(p))
    ensures |FileName(p)| < |p| ==> p[|p| - |FileName(p)| - 1] == '/'
    decreases |p|
  {
    if p != [] && p[|p| - 1] != '/' {
      var q := p[..|p| - 1];
      FileNameIsLastComponent(q);
      var f := FileName(p);
      assert f == FileName(q) + [p[|p| - 1]];
      assert p[|p| - |f|..] == q[|q| - |FileName(q)|..] + [p[|p| - 1]];
      if |f| < |p| {
        assert p[|p| - |f| - 1] == q[|q| - |FileName(q)| - 1];
      }
    }
  }

  /** The text before the first '.'. */
  function BeforeDot(s: string): string
    decreases |s|
  {
    if s == [] || s[0] == '.' then [] else [s[0]] + BeforeDot(s[1..])
  }

  /** BeforeDot is the longest head of the text free of '.'. */
  lemma {:induction false} BeforeDotIsFirstPart(s: string)
    ensures '.' !in BeforeDot(s) && StartsWith(s, BeforeDot(s))
    ensures |BeforeDot(s)| < |s| ==> s[|BeforeDot(s)|] == '.'
    decreases |s|
  {
    if s != [] && s[0] != '.' {
      BeforeDotIsFirstPart(s[1..]);
      var b := BeforeDot(s);
      assert b == [s[0]] + BeforeDot(s[1..]);
      assert s[..|b|] == [s[0]] + s[1..][..|b| - 1];
    }
  }

  /** QFileInfo::baseName: the file name up to its first '.'. */
  function BaseName(p: string): string {
    BeforeDot(FileName(p))
  }

  /** A base name holds neither a separator nor a dot, and heads the file name. */
  lemma BaseNameParts(p: string)
    ensures '/' !in BaseName(p) && '.' !in BaseName(p)
    ensures StartsWith(FileName(p), BaseName(p)) && EndsWith(p, FileName(p))
  {
    var f := FileName(p);
    FileNameIsLastComponent(p);
    BeforeDotIsFirstPart(f);
    NotInPrefix(f, BaseName(p), '/');
  }

  /** A character is kept when it is a letter or digit (by `alnum`, the classifier the
      toolkit supplies) or '_'. */
  predicate Valid(c: char, alnum: char -> bool) {
    alnum(c) || c == '_'
  }

  /** The sanitised base name: every other character becomes '_'. */
  function SanitizedName(s: string, alnum: char -> bool): (r: string)
    ensures |r| == |s|
    ensures forall i :: 0 <= i < |s| ==> Valid(r[i], alnum)
    ensures forall i :: 0 <= i < |s| && Valid(s[i], alnum) ==> r[i] == s[i]
  {
    seq(|s|, i requires 0 <= i < |s| => if Valid(s[i], alnum) then s[i] else '_')
  }

  /** Sanitising twice is sanitising once, and a valid name is left alone. */
  lemma SanitizeIdempotent(s: string, alnum: char -> bool)
    ensures SanitizedName(SanitizedName(s, alnum), alnum) == SanitizedName(s, alnum)
    ensures (forall i :: 0 <= i < |s| ==> Valid(s[i], alnum)) ==> SanitizedName(s, alnum) == s
  {
  }

  /** ASCII letters and digits. */
  predicate AsciiAlnum(c: char) {
    'a' <= c <= 'z' || 'A' <= c <= 'Z' || '0' <= c <= '9'
  }

  /** With the ASCII classifier a sanitised name is a C identifier body. */
  lemma AsciiSanitizedIsIdentifier(s: string)
    ensures forall c :: c in SanitizedName(s, AsciiAlnum) ==> AsciiAlnum(c) || c == '_'
  {
    var r := SanitizedName(s, AsciiAlnum);
    forall c | c in r
      ensures AsciiAlnum(c) || c == '_'
    {
      var i :| 0 <= i < |r| && r[i] == c;
      assert Valid(r[i], AsciiAlnum);
    }
  }

  /** The loop that overwrites each invalid character of `baseName` with '_'. */
  method Sanitize(baseName: string, alnum: char -> bool) returns (r: string)
    ensures r == SanitizedName(baseName, alnum)
  {
    r := baseName;
    var j := 0;
    while j < |r|
      invariant 0 <= j <= |r| == |baseName|
      invariant r[..j] == SanitizedName(baseName, alnum)[..j]
      invariant r[j..] == baseName[j..]
    {
      var c := r[j];
      if !alnum(c) && c != '_' {
        r := r[j := '_'];
      }
      assert r[j] == SanitizedName(baseName, alnum)[j];
      j := j + 1;
    }
  }

  /** The converter's arguments for one image. */
  function ScriptArgs(imagePath: string, outputDir: string, baseName: string): (args: seq<string>)
    ensures |args| == 9 && args[0] == imagePath && args[2] == outputDir && args[8] == baseName
    ensures args[1] == "--output" && args[3] == "--ofmt" && args[5] == "--cf" && args[7] == "--name"
    ensures args[4] == "C" && args[6] == "RGB565"
  {
    [imagePath, "--output", outputDir, "--ofmt", "C", "--cf", "RGB565", "--name", baseName]
  }

  /** The outcomes processImages cannot see in advance: the interpreter's exit codes, the
      character classifier, the image index at which the user cancels (images from there
      on are not processed), the absolute output folder, whether the two generated files
      can be opened, and whether the firmware build afterwards succeeds. */
  datatype RunEnv = RunEnv(run: Interpreter, alnum: char -> bool, cancelAt: nat, absDir: string,
                           headerOpens: bool, implOpens: bool, buildOk: bool)

  /** The array name an image gets. */
  function ImageName(p: string, env: RunEnv): string {
    SanitizedName(BaseName(p), env.alnum)
  }

  /** Whether the converter succeeds on an image. */
  predicate Converts(p: string, env: RunEnv) {
    env.run(RunScriptArgs(ScriptPath, ScriptArgs(p, env.absDir, ImageName(p, env)))) == 0
  }

  /** What one image adds to the array: its name when it converted, nothing otherwise. */
  function Contribution(p: string, env: RunEnv): seq<string> {
    if Converts(p, env) then [ImageName(p, env)] else []
  }

  /** The names of the images that converted, in input order. */
  function Converted(ps: seq<string>, env: RunEnv): seq<string> {
    if ps == [] then [] else Contribution(ps[0], env) + Converted(ps[1..], env)
  }

  /** Every image's name, in input order. */
  function AllNames(ps: seq<string>, env: RunEnv): (ns: seq<string>)
    ensures |ns| == |ps|
  {
    if ps == [] then [] else [ImageName(ps[0], env)] + AllNames(ps[1..], env)
  }

  lemma {:induction false} ConvertedAppend(a: seq<string>, b: seq<string>, env: RunEnv)
    ensures Converted(a + b, env) == Converted(a, env) + Converted(b, env)
    decreases |a|
  {
    if a == [] {
      assert a + b == b;
    } else {
      ConvertedAppend(a[1..], b, env);
      TailOfAppend(a, b);
      var c := Contribution(a[0], env);
      calc {
        Converted(a + b, env);
        c + Converted(a[1..] + b, env);
        c + (Converted(a[1..], env) + Converted(b, env));
        (c + Converted(a[1..], env)) + Converted(b, env);
      }
    }
  }

  /** Each name in the array belongs to an image that converted. */
  lemma {:induction false} ConvertedSound(ps: seq<string>, env: RunEnv, x: string)
    requires x in Converted(ps, env)
    ensures exists i :: 0 <= i < |ps| && Converts(ps[i], env) && ImageName(ps[i], env) == x
    decreases |ps|
  {
    if !(Converts(ps[0], env) && x == ImageName(ps[0], env)) {
      assert x in Converted(ps[1..], env);
      ConvertedSound(ps[1..], env, x);
      var j :| 0 <= j < |ps[1..]| && Converts(ps[1..][j], env) && ImageName(ps[1..][j], env) == x;
      assert ps[j + 1] == ps[1..][j];
    }
  }

  /** Every image that converted has its name in the array. */
  lemma {:induction false} ConvertedComplete(ps: seq<string>, env: RunEnv, i: nat)
    requires i < |ps| && Converts(ps[i], env)
    ensures ImageName(ps[i], env) in Converted(ps, env)
    decreases i
  {
    if i > 0 {
      assert ps[1..][i - 1] == ps[i];
      ConvertedComplete(ps[1..], env, i - 1);
    }
  }

  /** No conversion, no names. */
  lemma {:induction false} ConvertedNone(ps: seq<string>, env: RunEnv)
    requires forall i :: 0 <= i < |ps| ==> !Converts(ps[i], env)
    ensures Converted(ps, env) == []
    decreases |ps|
  {
    if ps != [] {
      assert !Converts(ps[0], env);
      ConvertedNone(ps[1..], env);
    }
  }

  /** The array keeps the images' order: it is the list of all names with the failed
      ones left out. */
  lemma {:induction false} ConvertedInOrder(ps: seq<string>, env: RunEnv)
    ensures Subsequence(Converted(ps, env), AllNames(ps, env))
    ensures |Converted(ps, env)| <= |ps|
    decreases |ps|
  {
    if ps != [] {
      ConvertedInOrder(ps[1..], env);
      var xs, rest := Converted(ps, env), Converted(ps[1..], env);
      var ys := AllNames(ps, env);
      assert ys[1..] == AllNames(ps[1..], env);
      if Converts(ps[0], env) {
        assert xs == [ImageName(ps[0], env)] + rest;
        assert xs[0] == ys[0] && xs[1..] == rest;
      } else {
        assert xs == rest;
      }
    }
  }

  /** Text as a text stream writes it: each line followed by a newline. */
  function Unlines(lines: seq<string>): string {
    if lines == [] then "" else lines[0] + "\n" + Unlines(lines[1..])
  }

  lemma {:induction false} UnlinesAppend(a: seq<string>, b: seq<string>)
    ensures Unlines(a + b) == Unlines(a) + Unlines(b)
    decreases |a|
  {
    if a == [] {
      assert a + b == b;
    } else {
      UnlinesAppend(a[1..], b);
      TailOfAppend(a, b);
    }
  }

  const DeclPrefix: string := "extern const lv_img_dsc_t "
  const CountPrefix: string := "#define IMAGE_COUNT "

  function Decl(name: string): string {
    DeclPrefix + name + ";"
  }

  function Decls(names: seq<string>): (ds: seq<string>)
    ensures |ds| == |names|
  {
    seq(|names|, i requires 0 <= i < |names| => Decl(names[i]))
  }

  lemma DeclsAppend(names: seq<string>, x: string)
    ensures Decls(names + [x]) == Decls(names) + [Decl(x)]
  {
  }

  const HeaderPreamble: seq<string> :=
    ["#pragma once", "", "#ifdef __cplusplus", "extern \"C\" {", "#endif", "", "#include \"lvgl.h\"", ""]

  const ArrayDecl: string := "extern const lv_img_dsc_t* images[IMAGE_COUNT];"

  function HeaderTail(count: nat): seq<string> {
    ["", CountPrefix + NatToString(count), ArrayDecl, "", "#ifdef __cplusplus", "}", "#endif"]
  }

  /** generated_images.h: one declaration per converted image, and IMAGE_COUNT. */
  function HeaderLines(names: seq<string>): seq<string> {
    HeaderPreamble + Decls(names) + HeaderTail(|names|)
  }

  predicate IsDecl(line: string) {
    StartsWith(line, DeclPrefix)
  }

  predicate IsCount(line: string) {
    StartsWith(line, CountPrefix)
  }

  /** The declaration lines of a file, in order. */
  function Declared(lines: seq<string>): seq<string> {
    if lines == [] then [] else (if IsDecl(lines[0]) then [lines[0]] else []) + Declared(lines[1..])
  }

  /** The value of the first IMAGE_COUNT definition, as the preprocessor reads it. */
  function DefinedCount(lines: seq<string>): Option<nat> {
    if lines == [] then None
    else if IsCount(lines[0]) then Some(ParseNat(lines[0][|CountPrefix|..]))
    else DefinedCount(lines[1..])
  }

  lemma {:induction false} DeclaredAppend(a: seq<string>, b: seq<string>)
    ensures Declared(a + b) == Declared(a) + Declared(b)
    decreases |a|
  {
    if a == [] {
      assert a + b == b;
    } else {
      DeclaredAppend(a[1..], b);
      TailOfAppend(a, b);
      var h := if IsDecl(a[0]) then [a[0]] else [];
      calc {
        Declared(a + b);
        h + Declared(a[1..] + b);
        h + (Declared(a[1..]) + Declared(b));
        (h + Declared(a[1..])) + Declared(b);
      }
    }
  }

  lemma {:induction false} DeclaredNone(lines: seq<string>)
    requires forall i :: 0 <= i < |lines| ==> !IsDecl(lines[i])
    ensures Declared(lines) == []
    decreases |lines|
  {
    if lines != [] {
      DeclaredNone(lines[1..]);
    }
  }

  lemma {:induction false} DeclaredAll(names: seq<string>)
    ensures Declared(Decls(names)) == Decls(names)
    decreases |names|
  {
    if names != [] {
      var ds := Decls(names);
      assert ds[1..] == Decls(names[1..]);
      DeclaredAll(names[1..]);
      assert ds[0][..|DeclPrefix|] == DeclPrefix;
      assert ds == [ds[0]] + ds[1..];
    }
  }

  lemma {:induction false} CountSkip(a: seq<string>, b: seq<string>)
    requires forall i :: 0 <= i < |a| ==> !IsCount(a[i])
    ensures DefinedCount(a + b) == DefinedCount(b)
    decreases |a|
  {
    if a == [] {
      assert a + b == b;
    } else {
      CountSkip(a[1..], b);
      TailOfAppend(a, b);
    }
  }

  /** A line starting with '#' whose second character is not 'd' neither declares an
      image nor defines the count. */
  lemma DirectiveQuiet(line: string)
    requires |line| > 1 && line[0] == '#' && line[1] != 'd'
    ensures !IsDecl(line) && !IsCount(line)
  {
    StartsWithAt(line, DeclPrefix, 0);
    StartsWithAt(line, CountPrefix, 1);
  }

  lemma PreambleQuiet()
    ensures forall i :: 0 <= i < |HeaderPreamble| ==> !IsDecl(HeaderPreamble[i]) && !IsCount(HeaderPreamble[i])
  {
    var h := HeaderPreamble;
    DirectiveQuiet(h[0]);
    DirectiveQuiet(h[2]);
    assert |h[3]| < |CountPrefix| < |DeclPrefix|;
    DirectiveQuiet(h[4]);
    DirectiveQuiet(h[6]);
  }

  lemma TailFacts(count: nat)
    ensures forall i :: 0 <= i < |HeaderTail(count)| ==> !IsDecl(HeaderTail(count)[i])
    ensures DefinedCount(HeaderTail(count)) == Some(count)
  {
    var t := HeaderTail(count);
    var line := t[1];
    assert line[..|CountPrefix|] == CountPrefix && line[|CountPrefix|..] == NatToString(count);
    ParseNatToString(count);
    StartsWithAt(line, DeclPrefix, 0);
    assert ArrayDecl[25] == '*';
    StartsWithAt(ArrayDecl, DeclPrefix, 25);
    DirectiveQuiet(t[4]);
    DirectiveQuiet(t[6]);
    assert DefinedCount(t) == DefinedCount(t[1..]);
  }

  /** The header declares exactly the converted images, in order, and its IMAGE_COUNT
      reads back as their number. */
  lemma {:induction false} HeaderMatchesImages(names: seq<string>)
    ensures Declared(HeaderLines(names)) == Decls(names)
    ensures DefinedCount(HeaderLines(names)) == Some(|Declared(HeaderLines(names))|)
  {
    var p, d, t := HeaderPreamble, Decls(names), HeaderTail(|names|);
    PreambleQuiet();
    TailFacts(|names|);
    DeclaredAppend(p, d);
    DeclaredAppend(p + d, t);
    DeclaredNone(p);
    DeclaredNone(t);
    DeclaredAll(names);
    forall i | 0 <= i < |d|
      ensures !IsCount(d[i])
    {
      StartsWithAt(d[i], CountPrefix, 0);
      assert d[i][0] == 'e';
    }
    assert forall i :: 0 <= i < |p + d| ==> !IsCount((p + d)[i]);
    CountSkip(p + d, t);
  }

  /** One array entry: a reference, and a comma unless it is the last. */
  function EntryLines(names: seq<string>): (es: seq<string>)
    ensures |es| == |names|
  {
    seq(|names|, i requires 0 <= i < |names| => "    &" + names[i] + (if i < |names| - 1 then "," else ""))
  }

  /** generated_images.c */
  function ImplLines(names: seq<string>): seq<string> {
    ["#include \"generated_images.h\"", "", "", "const lv_img_dsc_t* images[IMAGE_COUNT] = {"] + EntryLines(names) + ["};"]
  }

  function Refs(names: seq<string>): seq<string> {
    seq(|names|, i requires 0 <= i < |names| => "    &" + names[i])
  }

  /** The array body is the references joined by ",\n": a comma after every entry but
      the last. */
  lemma {:induction false} EntriesAreJoined(names: seq<string>)
    requires names != []
    ensures Unlines(EntryLines(names)) == Join(Refs(names), ",\n") + "\n"
    decreases |names|
  {
    var es, rs := EntryLines(names), Refs(names);
    if |names| == 1 {
      assert es[0] == "    &" + names[0] + "" == rs[0];
      assert es == [rs[0]];
      assert Unlines(es) == rs[0] + "\n" + Unlines([]);
    } else {
      assert es[1..] == EntryLines(names[1..]);
      assert rs[1..] == Refs(names[1..]);
      EntriesAreJoined(names[1..]);
      var rest := Join(rs[1..], ",\n");
      assert es[0] == rs[0] + ",";
      calc {
        Unlines(es);
        es[0] + "\n" + Unlines(es[1..]);
        (rs[0] + ",") + "\n" + (rest + "\n");
        { assert (rs[0] + ",") + "\n" == rs[0] + ",\n"; }
        (rs[0] + ",\n" + rest) + "\n";
        Join(rs, ",\n") + "\n";
      }
    }
  }

  datatype Outcome = Outcome(ok: bool, paths: Tree, text: map<string, string>)

  function HeaderPath(outputDir: string): string { Child(outputDir, "generated_images.h") }
  function ImplPath(outputDir: string): string { Child(outputDir, "generated_images.c") }

  function Min(a: nat, b: nat): nat { if a <= b then a else b }

  /** processImages on the disk `t`: nothing for an empty list, a missing converter or a
      missing interpreter; otherwise the output folder is made, the images before the
      cancel point are converted, and with at least one success the two files are written
      (when they can be opened) and the firmware build decides the result. */
  function ProcessSpec(os: Os, t: Tree, text: map<string, string>, images: seq<string>,
                       outputDir: string, env: RunEnv): Outcome
  {
    if images == [] || ScriptPath !in t || !Available(t, os, env.run) then Outcome(false, t, text)
    else
      var t1 := t + {outputDir};
      var names := Converted(images[..Min(env.cancelAt, |images|)], env);
      if names == [] then Outcome(false, t1, text)
      else
        var t2 := if env.headerOpens then t1 + {HeaderPath(outputDir)} else t1;
        var text2 := if env.headerOpens then text[HeaderPath(outputDir) := Unlines(HeaderLines(names))] else text;
        var t3 := if env.implOpens then t2 + {ImplPath(outputDir)} else t2;
        var text3 := if env.implOpens then text2[ImplPath(outputDir) := Unlines(ImplLines(names))] else text2;
        Outcome(env.buildOk, t3, text3)
  }

  /** An empty selection fails at once and touches nothing. */
  lemma EmptySelectionFails(os: Os, t: Tree, text: map<string, string>, outputDir: string, env: RunEnv)
    ensures ProcessSpec(os, t, text, [], outputDir, env) == Outcome(false, t, text)
  {
  }

  /** Without a single successful conversion nothing is generated and the run fails. */
  lemma NoConversionNoFiles(os: Os, t: Tree, text: map<string, string>, images: seq<string>,
                            outputDir: string, env: RunEnv)
    requires forall i :: 0 <= i < |images| ==> !Converts(images[i], env)
    ensures var r := ProcessSpec(os, t, text, images, outputDir, env);
      !r.ok && r.text == text
  {
    var k := Min(env.cancelAt, |images|);
    assert forall i :: 0 <= i < k ==> images[..k][i] == images[i];
    ConvertedNone(images[..k], env);
  }

  /** A written header always agrees with itself on the image count. */
  lemma WrittenHeaderConsistent(os: Os, t: Tree, text: map<string, string>, images: seq<string>,
                                outputDir: string, env: RunEnv)
    requires images != [] && ScriptPath in t && Available(t, os, env.run) && env.headerOpens
    requires Converted(images[..Min(env.cancelAt, |images|)], env) != []
    ensures var names := Converted(images[..Min(env.cancelAt, |images|)], env);
      ProcessSpec(os, t, text, images, outputDir, env).text[HeaderPath(outputDir)] == Unlines(HeaderLines(names)) &&
      DefinedCount(HeaderLines(names)) == Some(|names|) && 0 < |names| <= |images|
  {
    var k := Min(env.cancelAt, |images|);
    var names := Converted(images[..k], env);
    HeaderMatchesImages(names);
    ConvertedInOrder(images[..k], env);
    if env.implOpens {
      assert HeaderPath(outputDir) != ImplPath(outputDir) by {
        var h, c := HeaderPath(outputDir), ImplPath(outputDir);
        assert h[|h| - 1] == 'h' && c[|c| - 1] == 'c';
      }
    }
  }

  class LvglScriptRunner {
    const os: Os
    const disk: Disk
    const python: EmbeddedPython

    predicate Valid()
      reads this
    {
      python.disk == disk && python.os == os
    }

    constructor (os: Os, disk: Disk)
      ensures this.os == os && this.disk == disk && Valid() && fresh(python)
    {
      this.os := os;
      this.disk := disk;
      python := new EmbeddedPython(os, disk);
    }

    /** ensurePythonReady */
    method EnsurePythonReady(run: Interpreter) returns (ready: bool)
      requires Valid()
      ensures ready <==> Available(disk.paths, os, run)
    {
      ready := python.IsAvailable(run);
    }

    /** The conversion loop of processImages: stops at the cancel point, and collects
        the output files, declarations and array names of the images that converted. */
    method ConvertAll(images: seq<string>, outputDir: string, env: RunEnv) returns (processed: seq<string>, declarations: seq<string>, arrayNames: seq<string>)
      requires Valid()
      ensures arrayNames == Converted(images[..Min(env.cancelAt, |images|)], env)
      ensures declarations == Decls(arrayNames) && |processed| == |arrayNames|
    {
      processed, declarations, arrayNames := [], [], [];
      var i := 0;
      while i < |images|
        invariant 0 <= i <= |images| && i <= Min(env.cancelAt, |images|)
        invariant arrayNames == Converted(images[..i], env)
        invariant declarations == Decls(arrayNames) && |processed| == |arrayNames|
      {
        if env.cancelAt <= i {
          break;
        }
        var imagePath := images[i];
        var baseName := Sanitize(BaseName(imagePath), env.alnum);
        var outputFile := Child(outputDir, baseName + ".c");
        var arguments := ScriptArgs(imagePath, env.absDir, baseName);
        var success := python.RunScript(ScriptPath, arguments, env.run);
        ConvertedAppend(images[..i], [imagePath], env);
        TakeStep(images, i);
        if success {
          processed := processed + [outputFile];
          DeclsAppend(arrayNames, baseName);
          arrayNames := arrayNames + [baseName];
          declarations := declarations + [Decl(baseName)];
        } else {
          assert arrayNames + [] == arrayNames;
        }
        i := i + 1;
      }
      assert images[..i] == images[..Min(env.cancelAt, |images|)];
    }

    /** The header-writing loop: the fixed preamble, each declaration, and the count. */
    method HeaderText(declarations: seq<string>, count: nat) returns (text: string)
      ensures text == Unlines(HeaderPreamble + declarations + HeaderTail(count))
    {
      text := Unlines(HeaderPreamble);
      var i := 0;
      assert HeaderPreamble + declarations[..0] == HeaderPreamble;
      while i < |declarations|
        invariant 0 <= i <= |declarations|
        invariant text == Unlines(HeaderPreamble + declarations[..i])
      {
        UnlinesAppend(HeaderPreamble + declarations[..i], [declarations[i]]);
        HeadTakeStep(HeaderPreamble, declarations, i);
        assert Unlines([declarations[i]]) == declarations[i] + "\n" + Unlines([]);
        text := text + declarations[i] + "\n";
        i := i + 1;
      }
      assert declarations[..i] == declarations;
      UnlinesAppend(HeaderPreamble + declarations, HeaderTail(count));
      text := text + Unlines(HeaderTail(count));
    }

    /** The array-writing loop: a reference per name, a comma after all but the last. */
    method ImplText(arrayNames: seq<string>) returns (text: string)
      ensures text == Unlines(ImplLines(arrayNames))
    {
      var head: seq<string> := ["#include \"generated_images.h\"", "", "", "const lv_img_dsc_t* images[IMAGE_COUNT] = {"];
      var entries := EntryLines(arrayNames);
      text := Unlines(head);
      var i := 0;
      assert head + entries[..0] == head;
      while i < |arrayNames|
        invariant 0 <= i <= |arrayNames|
        invariant text == Unlines(head + entries[..i])
      {
        var line := "    &" + arrayNames[i];
        if i < |arrayNames| - 1 {
          line := line + ",";
        }
        assert line == entries[i];
        UnlinesAppend(head + entries[..i], [line]);
        HeadTakeStep(head, entries, i);
        assert Unlines([line]) == line + "\n" + Unlines([]);
        text := text + line + "\n";
        i := i + 1;
      }
      assert entries[..i] == entries;
      UnlinesAppend(head + entries, ["};"]);
      assert Unlines(["};"]) == "};" + "\n" + Unlines([]);
      text := text + "};\n";
    }

    /** The two generated files, each written when it can be opened. */
    method WriteOutputs(outputDir: string, declarations: seq<string>, arrayNames: seq<string>, env: RunEnv)
      requires declarations == Decls(arrayNames)
      modifies disk
      ensures var t2 := if env.headerOpens then old(disk.paths) + {HeaderPath(outputDir)} else old(disk.paths);
        disk.paths == (if env.implOpens then t2 + {ImplPath(outputDir)} else t2)
      ensures var text2 := if env.headerOpens then old(disk.text)[HeaderPath(outputDir) := Unlines(HeaderLines(arrayNames))] else old(disk.text);
        disk.text == (if env.implOpens then text2[ImplPath(outputDir) := Unlines(ImplLines(arrayNames))] else text2)
    {
      if env.headerOpens {
        var header := HeaderText(declarations, |arrayNames|);
        disk.paths := disk.paths + {HeaderPath(outputDir)};
        disk.text := disk.text[HeaderPath(outputDir) := header];
      }
      if env.implOpens {
        var impl := ImplText(arrayNames);
        disk.paths := disk.paths + {ImplPath(outputDir)};
        disk.text := disk.text[ImplPath(outputDir) := impl];
      }
    }

    /** processImages */
    method ProcessImages(images: seq<string>, outputDir: string, env: RunEnv) returns (ok: bool)
      requires Valid()
      modifies disk
      ensures var r := ProcessSpec(os, old(disk.paths), old(disk.text), images, outputDir, env);
        ok == r.ok && disk.paths == r.paths && disk.text == r.text
    {
      if images == [] {
        return false;
      }
      if ScriptPath !in disk.paths {
        return false;
      }
      var ready := EnsurePythonReady(env.run);
      if !ready {
        return false;
      }
      if outputDir !in disk.paths {
        disk.paths := disk.paths + {outputDir};
      }
      assert disk.paths == old(disk.paths) + {outputDir};
      var processed, declarations, arrayNames := ConvertAll(images, outputDir, env);
      ghost var names := Converted(images[..Min(env.cancelAt, |images|)], env);
      assert arrayNames == names;
      if processed == [] {
        return false;
      }
      WriteOutputs(outputDir, declarations, arrayNames, env);
      ok := env.buildOk;
    }
  }
}
