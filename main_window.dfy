/** The main window's image list: at most ten distinct images of exactly 170x320
    pixels, each knowing its position, shown four to a row and handed to the script
    runner in list order. */
module Window {
  import opened Text
  import opened Platform
  import opened FileTree
  import opened ScriptRunner

  const MaxImages: nat := 10
  const RequiredWidth: int := 170
  const RequiredHeight: int := 320

  /** ImageInfo: a selected image and its position in the list. */
  datatype ImageInfo = ImageInfo(path: string, index: int)

  /** What loading an image file gives: nothing, or a picture of some size. */
  datatype Pixmap = Unloadable | Loaded(width: int, height: int)

  /** Which message addImage ends with. */
  datatype AddResult = Added | TooMany | LoadFailed | WrongSize | Duplicate

  function Paths(images: seq<ImageInfo>): (ps: seq<string>)
    ensures |ps| == |images|
  {
    seq(|images|, i requires 0 <= i < |images| => images[i].path)
  }

  /** The list invariant addImage and removeImage keep: bounded, free of repeated
      paths, and each entry's index is its position. */
  predicate WellFormed(images: seq<ImageInfo>) {
    |images| <= MaxImages &&
    (forall i, j :: 0 <= i < j < |images| ==> images[i].path != images[j].path) &&
    (forall i :: 0 <= i < |images| ==> images[i].index == i)
  }

  /** validateImageSize: the picture must load and measure 170 by 320. */
  function CheckSize(px: Pixmap): AddResult {
    match px
    case Unloadable => LoadFailed
    case Loaded(w, h) => if w != RequiredWidth || h != RequiredHeight then WrongSize else Added
  }

  lemma SizeAccepted(px: Pixmap)
    ensures CheckSize(px) == Added <==> px == Loaded(RequiredWidth, RequiredHeight)
    ensures CheckSize(px) != Added ==> CheckSize(px) in {LoadFailed, WrongSize}
  {
  }

  /** addImage's checks in their order: room, size, then repetition. */
  function AddOutcome(images: seq<ImageInfo>, path: string, px: Pixmap): AddResult {
    if |images| >= MaxImages then TooMany
    else if CheckSize(px) != Added then CheckSize(px)
    else if path in Paths(images) then Duplicate
    else Added
  }

  function AddSpec(images: seq<ImageInfo>, path: string, px: Pixmap): seq<ImageInfo> {
    if AddOutcome(images, path, px) == Added then images + [ImageInfo(path, |images|)] else images
  }

  /** Adding keeps the list well formed; it grows by the new path exactly when the
      list had room, the picture the right size, and the path was new. */
  lemma AddKeepsWellFormed(images: seq<ImageInfo>, path: string, px: Pixmap)
    requires WellFormed(images)
    ensures WellFormed(AddSpec(images, path, px))
    ensures AddOutcome(images, path, px) == Added <==>
      |images| < MaxImages && px == Loaded(RequiredWidth, RequiredHeight) && path !in Paths(images)
    ensures Paths(AddSpec(images, path, px)) ==
      Paths(images) + (if AddOutcome(images, path, px) == Added then [path] else [])
  {
    var r := AddSpec(images, path, px);
    if AddOutcome(images, path, px) == Added {
      forall i, j | 0 <= i < j < |r|
        ensures r[i].path != r[j].path
      {
        if j == |images| {
          assert Paths(images)[i] == r[i].path;
        }
      }
      assert Paths(r) == Paths(images) + [path];
    }
  }

  /** A full list takes nothing, whatever the picture. */
  lemma FullListUnchanged(images: seq<ImageInfo>, path: string, px: Pixmap)
    requires |images| >= MaxImages
    ensures AddOutcome(images, path, px) == TooMany && AddSpec(images, path, px) == images
  {
  }

  /** removeAt followed by the reindexing loop. */
  function Reindexed(images: seq<ImageInfo>): (r: seq<ImageInfo>)
    ensures |r| == |images|
  {
    seq(|images|, i requires 0 <= i < |images| => images[i].(index := i))
  }

  function RemoveSpec(images: seq<ImageInfo>, k: int): seq<ImageInfo> {
    if 0 <= k < |images| then Reindexed(images[..k] + images[k + 1..]) else images
  }

  /** After removal, position i holds what stood at i before k and at i + 1 after it. */
  lemma RemovedShift(images: seq<ImageInfo>, k: int)
    requires 0 <= k < |images|
    ensures var r := RemoveSpec(images, k);
      |r| == |images| - 1 &&
      (forall i :: 0 <= i < k ==> r[i] == images[i].(index := i)) &&
      (forall i :: k <= i < |r| ==> r[i] == images[i + 1].(index := i))
  {
  }

  /** Removal keeps the list well formed; an index out of range changes nothing, and
      otherwise exactly the k-th path goes, the rest keeping their order. */
  lemma RemoveKeepsWellFormed(images: seq<ImageInfo>, k: int)
    requires WellFormed(images)
    ensures WellFormed(RemoveSpec(images, k))
    ensures !(0 <= k < |images|) ==> RemoveSpec(images, k) == images
    ensures 0 <= k < |images| ==> Paths(RemoveSpec(images, k)) == Paths(images)[..k] + Paths(images)[k + 1..]
  {
    if 0 <= k < |images| {
      var r := RemoveSpec(images, k);
      RemovedShift(images, k);
      forall i, j | 0 <= i < j < |r|
        ensures r[i].path != r[j].path
      {
        var i', j' := if i < k then i else i + 1, if j < k then j else j + 1;
        assert r[i].path == images[i'].path && r[j].path == images[j'].path;
      }
      var ps := Paths(images);
      assert Paths(r) == ps[..k] + ps[k + 1..];
    }
  }

  /** Removing the image just added gives the list back. */
  lemma RemoveUndoesAdd(images: seq<ImageInfo>, path: string, px: Pixmap)
    requires WellFormed(images) && AddOutcome(images, path, px) == Added
    ensures RemoveSpec(AddSpec(images, path, px), |images|) == images
  {
    var a := AddSpec(images, path, px);
    assert a[..|images|] + a[|images| + 1..] == images;
  }

  /** One preview in the grid. */
  datatype Preview = Preview(path: string, index: int, row: int, column: int)

  /** updateUI's grid: preview i in row i / 4, column i % 4. */
  function Layout(images: seq<ImageInfo>): (g: seq<Preview>)
    ensures |g| == |images|
  {
    seq(|images|, i requires 0 <= i < |images| => Preview(images[i].path, i, i / 4, i % 4))
  }

  /** The grid is filled row by row, four wide: no two previews share a cell, later
      previews come later in reading order, and ten images fit in three rows. */
  lemma LayoutIsRowMajor(images: seq<ImageInfo>)
    ensures forall i :: 0 <= i < |images| ==> 0 <= Layout(images)[i].column < 4 && Layout(images)[i].row * 4 + Layout(images)[i].column == i
    ensures forall i, j :: 0 <= i < j < |images| ==>
      Layout(images)[i].row < Layout(images)[j].row ||
      (Layout(images)[i].row == Layout(images)[j].row && Layout(images)[i].column < Layout(images)[j].column)
    ensures |images| <= MaxImages ==> forall i :: 0 <= i < |images| ==> Layout(images)[i].row < 3
  {
    var g := Layout(images);
    forall i, j | 0 <= i < j < |images|
      ensures g[i].row < g[j].row || (g[i].row == g[j].row && g[i].column < g[j].column)
    {
      assert g[i].row * 4 + g[i].column == i && g[j].row * 4 + g[j].column == j;
    }
  }

  /** The counter label. */
  function CounterText(count: nat): string {
    "Images: " + NatToString(count) + "/" + NatToString(MaxImages)
  }

  /** The list flashImages hands on, or nothing for an empty list. */
  function FlashRequest(images: seq<ImageInfo>): Option<seq<string>> {
    if images == [] then None else Some(Paths(images))
  }

  /** The upload always carries every listed image, in list order, each once. */
  lemma FlashCarriesList(images: seq<ImageInfo>)
    requires WellFormed(images)
    ensures FlashRequest(images).Some? <==> images != []
    ensures FlashRequest(images).Some? ==>
      |FlashRequest(images).value| == |images| <= MaxImages &&
      (forall i :: 0 <= i < |images| ==> FlashRequest(images).value[images[i].index] == images[i].path) &&
      (forall i, j :: 0 <= i < j < |images| ==> FlashRequest(images).value[i] != FlashRequest(images).value[j])
  {
  }

  /** The folder the generated sources go to, next to the application. */
  const GeneratedDir: string := "generated"

  class MainWindow {
    var images: seq<ImageInfo>
    var grid: seq<Preview>
    var counterText: string
    var flashEnabled: bool
    const runner: LvglScriptRunner

    predicate Valid()
      reads this, runner
    {
      WellFormed(images) && runner.Valid()
    }

    /** The widgets updateUI derives from the list. */
    predicate Shown()
      reads this
    {
      grid == Layout(images) && counterText == CounterText(|images|) && flashEnabled == (images != [])
    }

    /** The window opens with an empty list and a disabled upload button. */
    constructor (os: Os, disk: Disk)
      ensures Valid() && Shown() && images == [] && !flashEnabled && runner.disk == disk && runner.os == os
    {
      images := [];
      grid := [];
      counterText := CounterText(0);
      flashEnabled := false;
      runner := new LvglScriptRunner(os, disk);
    }

    /** updateUI: rebuild the grid, then the counter and the button. */
    method UpdateUI()
      modifies this
      ensures images == old(images) && Shown()
    {
      var g: seq<Preview> := [];
      var i := 0;
      while i < |images|
        invariant 0 <= i <= |images|
        invariant g == Layout(images)[..i]
      {
        g := g + [Preview(images[i].path, i, i / 4, i % 4)];
        i := i + 1;
      }
      grid := g;
      counterText := CounterText(|images|);
      flashEnabled := images != [];
    }

    /** addImage; `px` is what loading the file gives. */
    method AddImage(path: string, px: Pixmap) returns (r: AddResult)
      requires Valid()
      modifies this
      ensures Valid() && r == AddOutcome(old(images), path, px) && images == AddSpec(old(images), path, px)
      ensures r == Added ==> Shown()
      ensures r != Added ==> grid == old(grid) && counterText == old(counterText) && flashEnabled == old(flashEnabled)
    {
      AddKeepsWellFormed(images, path, px);
      if |images| >= MaxImages {
        return TooMany;
      }
      r := CheckSize(px);
      if r != Added {
        return;
      }
      var i := 0;
      while i < |images|
        invariant 0 <= i <= |images|
        invariant path !in Paths(images)[..i]
      {
        if images[i].path == path {
          assert Paths(images)[i] == path;
          return Duplicate;
        }
        assert Paths(images)[..i + 1] == Paths(images)[..i] + [images[i].path];
        i := i + 1;
      }
      assert Paths(images)[..i] == Paths(images);
      images := images + [ImageInfo(path, |images|)];
      UpdateUI();
    }

    /** removeImage */
    method RemoveImage(k: int)
      requires Valid()
      modifies this
      ensures Valid() && images == RemoveSpec(old(images), k)
      ensures 0 <= k < |old(images)| ==> Shown()
      ensures !(0 <= k < |old(images)|) ==> grid == old(grid) && counterText == old(counterText) && flashEnabled == old(flashEnabled)
    {
      RemoveKeepsWellFormed(images, k);
      if 0 <= k < |images| {
        var rest := images[..k] + images[k + 1..];
        images := rest;
        var i := 0;
        while i < |images|
          invariant 0 <= i <= |images| == |rest|
          invariant images[..i] == Reindexed(rest)[..i] && images[i..] == rest[i..]
        {
          images := images[i := images[i].(index := i)];
          i := i + 1;
        }
        assert images == Reindexed(rest);
        UpdateUI();
      }
    }

    /** flashImages: nothing for an empty list, otherwise the paths in list order go to
        processImages, whose result the window does not use. */
    method FlashImages(env: RunEnv)
      requires Valid()
      modifies runner.disk
      ensures FlashRequest(images).None? ==> runner.disk.paths == old(runner.disk.paths) && runner.disk.text == old(runner.disk.text)
      ensures FlashRequest(images).Some? ==>
        var r := ProcessSpec(runner.os, old(runner.disk.paths), old(runner.disk.text), FlashRequest(images).value, GeneratedDir, env);
        runner.disk.paths == r.paths && runner.disk.text == r.text
    {
      if images == [] {
        return;
      }
      var imagePaths: seq<string> := [];
      var i := 0;
      while i < |images|
        invariant 0 <= i <= |images| && imagePaths == Paths(images)[..i]
      {
        imagePaths := imagePaths + [images[i].path];
        i := i + 1;
      }
      assert imagePaths == Paths(images);
      var _ := runner.ProcessImages(imagePaths, GeneratedDir, env);
    }
  }
}
