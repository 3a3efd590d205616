/** The drop area (ImageDropWidget): a drag is let in only when every URL it carries
    is a local image file, and a drop hands each local file to the main window. */
module Drop {
  import opened Text
  import opened ScriptRunner
  import opened Window

  /** A dragged URL: whether it names a local file, and that file's path. */
  datatype Url = Url(isLocal: bool, localPath: string)

  const ImageExtensions: seq<string> := ["png", "jpg", "jpeg", "bmp", "gif"]

  /** The text after the last '.', when there is one. */
  function AfterLastDot(s: string): Option<string>
    decreases |s|
  {
    if s == [] then None
    else if s[|s| - 1] == '.' then Some([])
    else match AfterLastDot(s[..|s| - 1])
      case None => None
      case Some(t) => Some(t + [s[|s| - 1]])
  }

  /** There is a text after a last dot exactly when there is a dot. */
  lemma {:induction false} AfterLastDotFound(s: string)
    ensures AfterLastDot(s).None? <==> '.' !in s
    decreases |s|
  {
    if s != [] && s[|s| - 1] != '.' {
      var q := s[..|s| - 1];
      AfterLastDotFound(q);
      assert s == q + [s[|s| - 1]];
    }
  }

  /** The tail after the last dot is free of dots, and the dot stands right before it. */
  lemma {:induction false} AfterLastDotIsLastPart(s: string)
    ensures AfterLastDot(s).None? <==> '.' !in s
    ensures AfterLastDot(s).Some? ==>
      var t := AfterLastDot(s).value;
      '.' !in t && EndsWith(s, t) && |t| < |s| && s[|s| - |t| - 1] == '.'
    decreases |s|
  {
    AfterLastDotFound(s);
    if s != [] && s[|s| - 1] != '.' {
      var q := s[..|s| - 1];
      AfterLastDotIsLastPart(q);
      if AfterLastDot(q).Some? {
        var c := s[|s| - 1];
        var t := AfterLastDot(q).value;
        assert AfterLastDot(s).value == t + [c];
        assert s == q + [c];
        LastPartExtends(q, t, c);
      }
    }
  }

  /** A character other than a dot, added to the name, extends its last part. */
  lemma LastPartExtends(q: string, t: string, c: char)
    requires '.' !in t && EndsWith(q, t) && |t| < |q| && q[|q| - |t| - 1] == '.' && c != '.'
    ensures var s, t' := q + [c], t + [c];
      '.' !in t' && EndsWith(s, t') && |t'| < |s| && s[|s| - |t'| - 1] == '.'
  {
    var s, t' := q + [c], t + [c];
    assert s[|s| - |t'|..] == q[|q| - |t|..] + [c];
    assert s[|s| - |t'| - 1] == q[|q| - |t| - 1];
  }

  /** QFileInfo::suffix: the file name's text after its last dot, or nothing. */
  function Suffix(path: string): string {
    var f := FileName(path);
    match AfterLastDot(f)
    case None => ""
    case Some(t) => t
  }

  /** The check one URL must pass, with the suffix compared in lower case. */
  predicate Acceptable(u: Url) {
    u.isLocal && LowerAscii(Suffix(u.localPath)) in ImageExtensions
  }

  /** dragEnterEvent's verdict. */
  predicate DragAccepted(hasUrls: bool, urls: seq<Url>) {
    hasUrls && forall i :: 0 <= i < |urls| ==> Acceptable(urls[i])
  }

  /** One URL that is not a local image file turns the whole drag away. */
  lemma OneBadUrlRejects(hasUrls: bool, urls: seq<Url>, i: nat)
    requires i < |urls| && (!urls[i].isLocal || LowerAscii(Suffix(urls[i].localPath)) !in ImageExtensions)
    ensures !DragAccepted(hasUrls, urls)
  {
    assert !Acceptable(urls[i]);
  }

  /** The file name of a path is what follows its last '/'. */
  lemma {:induction false} FileNameAfterSlash(dir: string, name: string)
    requires '/' !in name
    ensures FileName(dir + "/" + name) == name
    decreases |name|
  {
    var p := dir + "/" + name;
    if name == [] {
      assert p[|p| - 1] == '/';
    } else {
      var init := name[..|name| - 1];
      assert p[..|p| - 1] == dir + "/" + init;
      FileNameAfterSlash(dir, init);
      assert name == init + [name[|name| - 1]];
    }
  }

  /** The text after the last dot of `stem.ext` is `ext`. */
  lemma {:induction false} AfterLastDotOf(stem: string, ext: string)
    requires '.' !in ext
    ensures AfterLastDot(stem + "." + ext) == Some(ext)
    decreases |ext|
  {
    var s := stem + "." + ext;
    if ext == [] {
      assert s[|s| - 1] == '.';
    } else {
      var init := ext[..|ext| - 1];
      assert s[..|s| - 1] == stem + "." + init;
      AfterLastDotOf(stem, init);
      assert ext == init + [ext[|ext| - 1]];
    }
  }

  /** The extension is matched without regard to case: `dir/stem.EXT` is let in
      exactly when the lower-cased extension is an image one. */
  lemma ExtensionCaseIgnored(dir: string, stem: string, ext: string)
    requires '/' !in stem && '/' !in ext && '.' !in ext
    ensures Acceptable(Url(true, dir + "/" + stem + "." + ext)) <==> LowerAscii(ext) in ImageExtensions
  {
    assert dir + "/" + stem + "." + ext == dir + "/" + (stem + "." + ext);
    assert '/' !in stem + "." + ext;
    FileNameAfterSlash(dir, stem + "." + ext);
    AfterLastDotOf(stem, ext);
  }

  /** A file without an extension is never accepted. */
  lemma NoExtensionRejected(u: Url)
    requires '.' !in FileName(u.localPath)
    ensures !Acceptable(u)
  {
    AfterLastDotIsLastPart(FileName(u.localPath));
    assert Suffix(u.localPath) == "";
  }

  /** dragEnterEvent: the `allValid` loop that stops at the first URL failing. */
  method DragEnter(hasUrls: bool, urls: seq<Url>) returns (accepted: bool)
    ensures accepted == DragAccepted(hasUrls, urls)
  {
    if hasUrls {
      var allValid := true;
      var i := 0;
      while i < |urls|
        invariant 0 <= i <= |urls|
        invariant allValid
        invariant forall k :: 0 <= k < i ==> Acceptable(urls[k])
      {
        var url := urls[i];
        if !url.isLocal {
          allValid := false;
          break;
        }
        var extension := LowerAscii(Suffix(url.localPath));
        if extension !in ImageExtensions {
          allValid := false;
          break;
        }
        i := i + 1;
      }
      if allValid {
        return true;
      }
    }
    return false;
  }

  /** What one URL hands on: its path when it is a local file. */
  function Forwarded(u: Url): seq<string> {
    if u.isLocal then [u.localPath] else []
  }

  /** The paths of the local URLs, in order. */
  function LocalPaths(urls: seq<Url>): seq<string> {
    if urls == [] then [] else Forwarded(urls[0]) + LocalPaths(urls[1..])
  }

  lemma {:induction false} LocalPathsAppend(a: seq<Url>, b: seq<Url>)
    ensures LocalPaths(a + b) == LocalPaths(a) + LocalPaths(b)
    decreases |a|
  {
    if a == [] {
      assert a + b == b;
    } else {
      LocalPathsAppend(a[1..], b);
      TailOfAppend(a, b);
      calc {
        LocalPaths(a + b);
        Forwarded(a[0]) + LocalPaths(a[1..] + b);
        Forwarded(a[0]) + (LocalPaths(a[1..]) + LocalPaths(b));
        (Forwarded(a[0]) + LocalPaths(a[1..])) + LocalPaths(b);
      }
    }
  }

  /** Every local URL is forwarded, whatever its extension, and nothing else is. */
  lemma {:induction false} LocalPathsExact(urls: seq<Url>)
    ensures forall i :: 0 <= i < |urls| && urls[i].isLocal ==> urls[i].localPath in LocalPaths(urls)
    ensures forall p :: p in LocalPaths(urls) ==> exists i :: 0 <= i < |urls| && urls[i].isLocal && urls[i].localPath == p
    decreases |urls|
  {
    if urls != [] {
      var rest := urls[1..];
      LocalPathsExact(rest);
      forall i | 1 <= i < |urls| && urls[i].isLocal
        ensures urls[i].localPath in LocalPaths(urls)
      {
        assert rest[i - 1] == urls[i];
      }
      forall p | p in LocalPaths(urls)
        ensures exists i :: 0 <= i < |urls| && urls[i].isLocal && urls[i].localPath == p
      {
        if !(urls[0].isLocal && p == urls[0].localPath) {
          assert p in LocalPaths(rest);
          var j :| 0 <= j < |rest| && rest[j].isLocal && rest[j].localPath == p;
          assert urls[j + 1] == rest[j];
        }
      }
    }
  }

  /** addImage applied to each path in turn; `load` is what each file loads as. */
  function AddAll(images: seq<ImageInfo>, paths: seq<string>, load: string -> Pixmap): seq<ImageInfo>
    decreases |paths|
  {
    if paths == [] then images else AddAll(AddSpec(images, paths[0], load(paths[0])), paths[1..], load)
  }

  lemma {:induction false} AddAllAppend(images: seq<ImageInfo>, a: seq<string>, b: seq<string>, load: string -> Pixmap)
    ensures AddAll(images, a + b, load) == AddAll(AddAll(images, a, load), b, load)
    decreases |a|
  {
    if a == [] {
      assert a + b == b;
    } else {
      TailOfAppend(a, b);
      AddAllAppend(AddSpec(images, a[0], load(a[0])), a[1..], b, load);
    }
  }

  /** However many files are dropped, the list stays well formed: at most ten, no
      repeats, indices matching positions; and it only ever grows. */
  lemma {:induction false} DropKeepsWellFormed(images: seq<ImageInfo>, paths: seq<string>, load: string -> Pixmap)
    requires WellFormed(images)
    ensures WellFormed(AddAll(images, paths, load))
    ensures Paths(images) <= Paths(AddAll(images, paths, load))
    decreases |paths|
  {
    if paths != [] {
      var next := AddSpec(images, paths[0], load(paths[0]));
      AddKeepsWellFormed(images, paths[0], load(paths[0]));
      DropKeepsWellFormed(next, paths[1..], load);
    }
  }

  /** dropEvent: each local file goes to addImage, in order; extensions are not looked
      at again. Without a parent window nothing happens. */
  method DropEvent(urls: seq<Url>, window: MainWindow?, load: string -> Pixmap)
    requires window != null ==> window.Valid()
    modifies window
    ensures window != null ==> window.Valid() && window.images == AddAll(old(window.images), LocalPaths(urls), load)
  {
    var i := 0;
    while i < |urls|
      invariant 0 <= i <= |urls|
      invariant window != null ==> window.Valid() && window.images == AddAll(old(window.images), LocalPaths(urls[..i]), load)
    {
      var url := urls[i];
      LocalPathsAppend(urls[..i], [url]);
      TakeStep(urls, i);
      if url.isLocal {
        var filePath := url.localPath;
        if window != null {
          AddAllAppend(old(window.images), LocalPaths(urls[..i]), [filePath], load);
          assert LocalPaths([url]) == [filePath];
          ghost var before := window.images;
          assert AddAll(before, [filePath], load) == AddSpec(before, filePath, load(filePath)) by {
            assert [filePath][1..] == [];
          }
          var _ := window.AddImage(filePath, load(filePath));
        }
      } else {
        assert LocalPaths([url]) == [];
        assert LocalPaths(urls[..i + 1]) == LocalPaths(urls[..i]);
      }
      i := i + 1;
    }
    assert urls[..i] == urls;
  }
}
