/** The operating system the tool was compiled for (the `Q_OS_*` branches). */
module Platform {
  datatype Os = Windows | Linux | MacOS | OtherOs
}

/** The disk as the tool sees it: the set of paths that exist (directories and files
    alike), relative to the application directory, plus the text of the few files
    whose contents the tool rewrites. */
module FileTree {
  import opened Text
  import opened Platform

  type Tree = set<string>

  class Disk {
    var paths: Tree
    var text: map<string, string>

    constructor (paths: Tree, text: map<string, string>)
      ensures this.paths == paths && this.text == text
    {
      this.paths := paths;
      this.text := text;
    }
  }

  /** QDir(dir).absoluteFilePath(name) */
  function Child(dir: string, name: string): string {
    dir + "/" + name
  }

  /** `p` is `d` itself or lies somewhere below it. */
  predicate Under(p: string, d: string) {
    p == d || StartsWith(p, d + "/")
  }

  /** QDir(d).removeRecursively(): `d` and everything below it is gone. */
  function RemoveTree(t: Tree, d: string): (r: Tree)
    ensures forall p :: p in r <==> p in t && !Under(p, d)
  {
    set p | p in t && !Under(p, d)
  }

  /** `p` lies below `d` in an entry that QDir(d).entryList(AllEntries | NoDotAndDotDot)
      returns. Without QDir::Hidden the list leaves hidden entries out: outside Windows,
      those whose name begins with '.'. On Windows hiding is a file attribute, which this
      model does not carry, so every entry is listed there. */
  predicate ListedBelow(os: Os, p: string, d: string) {
    StartsWith(p, d + "/") && |p| > |d| + 1 && (os == Windows || p[|d| + 1] != '.')
  }

  /** QDir(d).entryList(AllEntries | NoDotAndDotDot) is non-empty. */
  predicate HasChildren(os: Os, t: Tree, d: string) {
    exists p :: p in t && ListedBelow(os, p, d)
  }

  /** Every path at or below `from` now sits at the same place below `to`. */
  function Moved(t: Tree, from: string, to: string): Tree {
    (set p | p in t && !Under(p, from)) + (set p | p in t && Under(p, from) :: to + p[|from|..])
  }

  /** When `QDir().rename(from, to)` on a directory succeeds: the source exists, the
      target does not, the target is not inside the source, and the platform lets the
      move happen (`allowed`: permissions, moves across volumes and the like). */
  predicate CanRename(t: Tree, from: string, to: string, allowed: bool) {
    allowed && from in t && to !in t && !StartsWith(to, from + "/")
  }

  /** The disk after `QDir().rename(from, to)`; unchanged when the rename is refused. */
  function Rename(t: Tree, from: string, to: string, allowed: bool): Tree {
    if CanRename(t, from, to, allowed) then Moved(t, from, to) else t
  }

  /** A path at or below `d` begins with the same character as `d`. */
  lemma UnderHead(p: string, d: string)
    requires |d| > 0
    ensures Under(p, d) ==> |p| > 0 && p[0] == d[0]
  {
  }

  /** After a move the target exists. */
  lemma MovedLands(t: Tree, from: string, to: string)
    requires from in t
    ensures to in Moved(t, from, to)
  {
    assert to + from[|from|..] == to;
  }

  /** Moving a folder into a place cleared beforehand: the target has listed content
      exactly when the source had. */
  lemma {:induction false} MovedChildren(os: Os, t: Tree, from: string, to: string)
    requires forall p :: p in t ==> !Under(p, to)
    ensures HasChildren(os, Moved(t, from, to), to) <==> HasChildren(os, t, from)
  {
    var m := Moved(t, from, to);
    if HasChildren(os, m, to) {
      var q :| q in m && ListedBelow(os, q, to);
      if q in t && !Under(q, from) {
        assert false;
      } else {
        var p :| p in t && Under(p, from) && q == to + p[|from|..];
        MovedEntry(os, p, from, to);
      }
    }
    if HasChildren(os, t, from) {
      var p :| p in t && ListedBelow(os, p, from);
      assert Under(p, from);
      assert to + p[|from|..] in m;
      MovedEntry(os, p, from, to);
    }
  }

  /** A path below `from`, carried to the same place below `to`, is listed exactly when
      it was. */
  lemma MovedEntry(os: Os, p: string, from: string, to: string)
    requires Under(p, from)
    ensures ListedBelow(os, to + p[|from|..], to) <==> ListedBelow(os, p, from)
  {
    var rest := p[|from|..];
    var q := to + rest;
    assert p == from + rest;
    if rest != [] {
      assert p[|from|] == '/' by {
        if p != from {
          assert p[..|from| + 1] == from + "/";
        }
      }
      assert q[..|to| + 1] == to + "/";
      assert p[..|from| + 1] == from + "/";
    }
    if |rest| > 1 {
      assert q[|to| + 1] == rest[1] == p[|from| + 1];
    }
  }

  /** Two names without '/' in one directory reach the same path below them only if
      they are the same name. */
  lemma ChildrenApart(q: string, dir: string, a: string, b: string)
    requires '/' !in a && '/' !in b
    requires StartsWith(q, Child(dir, a) + "/") && StartsWith(q, Child(dir, b) + "/")
    ensures a == b
  {
    var n, pa, pb := |dir| + 1, Child(dir, a) + "/", Child(dir, b) + "/";
    assert q[..|pa|] == pa && q[..|pb|] == pb;
    forall j | n <= j < n + |a| ensures q[j] != '/' {
      assert q[j] == pa[j] == a[j - n];
    }
    forall j | n <= j < n + |b| ensures q[j] != '/' {
      assert q[j] == pb[j] == b[j - n];
    }
    assert q[n + |a|] == pa[n + |a|] == '/';
    assert q[n + |b|] == pb[n + |b|] == '/';
    assert a == pa[n..n + |a|] == q[n..n + |a|] == pb[n..n + |b|] == b;
  }

  /** A child of `dir` named without '/' lies at or below a sibling only if it is that sibling. */
  lemma ChildUnderSibling(dir: string, a: string, b: string)
    requires '/' !in a && '/' !in b
    requires Under(Child(dir, a), Child(dir, b))
    ensures a == b
  {
    var n, ca := |dir| + 1, Child(dir, a);
    forall j | n <= j < |ca| ensures ca[j] != '/' {
      assert ca[j] == a[j - n];
    }
    StartsWithAt(ca, Child(dir, b) + "/", n + |b|);
    assert a == ca[n..] == Child(dir, b)[n..] == b;
  }
}
