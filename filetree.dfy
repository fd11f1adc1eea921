/** The part of the POSIX filesystem the model touches: regular files,
    directories and symbolic links, held as a map from path to entry.
    Paths are normalised strings (no `//`, no trailing `/`, no `.`/`..`). */
module FileTree {
  import opened Text
  import opened Wrappers

  type Path = string

  datatype Entry = File | Dir | Link(target: Path)

  /** Index just past the last `/` of `p`, 0 when there is none. */
  function SplitPoint(p: Path): (i: nat)
    ensures i <= |p|
    ensures i > 0 ==> p[i - 1] == '/'
    ensures forall k :: i <= k < |p| ==> p[k] != '/'
  {
    if p == [] then 0 else if p[|p| - 1] == '/' then |p| else SplitPoint(p[..|p| - 1])
  }

  function RStripSlashes(s: string): (r: string)
    ensures |r| <= |s| && r == s[..|r|]
    ensures r == [] || r[|r| - 1] != '/'
  {
    if s != [] && s[|s| - 1] == '/' then RStripSlashes(s[..|s| - 1]) else s
  }

  predicate AllSlashes(s: string) { forall k :: 0 <= k < |s| ==> s[k] == '/' }

  /** `posixpath.dirname`: everything up to the last `/`, trailing slashes
      removed unless the head is made of slashes only. */
  function Dirname(p: Path): (r: Path)
    ensures |r| <= |p| && r == p[..|r|]
    ensures '/' !in p ==> r == ""
  {
    var head := p[..SplitPoint(p)];
    if '/' !in p then assert SplitPoint(p) == 0; ""
    else if head != [] && !AllSlashes(head) then RStripSlashes(head) else head
  }

  /** `posixpath.basename`. */
  function Basename(p: Path): (r: string)
    ensures '/' !in r
    ensures EndsWith(p, r)
  {
    p[SplitPoint(p)..]
  }

  /** The index of the last `.` in `p`, if any. */
  function LastDot(p: Path): (r: Option<nat>)
    ensures r.Some? ==> r.value < |p| && p[r.value] == '.'
    ensures r.Some? ==> forall k :: r.value < k < |p| ==> p[k] != '.'
    ensures r.None? ==> '.' !in p
  {
    if p == [] then None
    else if p[|p| - 1] == '.' then Some(|p| - 1)
    else LastDot(p[..|p| - 1])
  }

  /** Where `os.path.splitext` cuts `p`: at the last `.` of the last
      component, unless everything before it in that component is dots
      (a hidden file such as `.profile` has no extension); else at the end. */
  function ExtStart(p: Path): (i: nat)
    ensures i <= |p|
    ensures i < |p| ==> p[i] == '.' && SplitPoint(p) < i
    ensures i < |p| ==> forall k :: i < k < |p| ==> p[k] != '.' && p[k] != '/'
  {
    match LastDot(p)
    case Some(d) =>
      if d >= SplitPoint(p) && exists k :: SplitPoint(p) <= k < d && p[k] != '.' then d else |p|
    case None => |p|
  }

  /** `os.path.splitext(p)`: the root and the extension, which together
      give back `p`. */
  function SplitExt(p: Path): (r: (Path, string))
    ensures r.0 + r.1 == p
    ensures r.1 == [] || (r.1[0] == '.' && '.' !in r.1[1..] && '/' !in r.1)
  {
    var i := ExtStart(p);
    assert i < |p| ==> p[i..][1..] == p[i + 1..];
    (p[..i], p[i..])
  }

  /** `posixpath.join(a, b)` for two components. */
  function JoinPath(a: Path, b: string): (r: Path)
    ensures !StartsWith(b, "/") ==> EndsWith(r, b)
  {
    if StartsWith(b, "/") then b
    else if a == "" || a[|a| - 1] == '/' then a + b
    else a + "/" + b
  }

  /** A directory path as the source builds them: `/`, or non-empty with no trailing slash. */
  predicate IsDirPath(d: Path) { d == "/" || (d != "" && d[|d| - 1] != '/') }

  /** A single path component. */
  predicate IsName(n: string) { n != "" && '/' !in n }

  lemma DirnameOfJoin(d: Path, n: string)
    requires IsDirPath(d) && IsName(n)
    ensures Dirname(JoinPath(d, n)) == d
    ensures Basename(JoinPath(d, n)) == n
  {
    var p := JoinPath(d, n);
    assert n[0] in n && n[..1] == [n[0]];
    if d == "/" {
      assert p == "/" + n;
      SplitAfterPrefix("/", n);
      assert p[..1] == "/";
      assert AllSlashes(p[..1]);
    } else {
      assert p == (d + "/") + n;
      SplitAfterPrefix(d + "/", n);
      assert p[..|d| + 1] == d + "/";
      assert !AllSlashes(d + "/") by { assert (d + "/")[|d| - 1] != '/'; }
      assert RStripSlashes(d + "/") == RStripSlashes(d);
    }
  }

  lemma SplitAfterPrefix(h: string, n: string)
    requires h != [] && h[|h| - 1] == '/' && '/' !in n
    ensures SplitPoint(h + n) == |h|
    ensures '/' in h + n
    decreases |n|
  {
    var p := h + n;
    assert p[|h| - 1] == '/';
    if n != [] {
      assert p[..|p| - 1] == h + n[..|n| - 1];
      SplitAfterPrefix(h, n[..|n| - 1]);
    } else {
      assert p == h;
    }
  }

  /** The prefix every path strictly below `root` starts with. */
  function Below(root: Path): string {
    if root != "" && root[|root| - 1] == '/' then root else root + "/"
  }

  /** `p` lies strictly below `root` (what `os.walk(root)` reaches). */
  predicate Under(root: Path, p: Path) {
    StartsWith(p, Below(root)) && p != Below(root)
  }

  /** `p` lies strictly below `c`, which lies strictly below `d`. */
  lemma UnderTrans(d: Path, c: Path)
    ensures forall q :: Under(d, c) && Under(c, q) ==> Under(d, q)
  {
    forall q | Under(d, c) && Under(c, q) ensures Under(d, q) {
      assert Below(c)[..|c|] == c;
      assert q[..|Below(c)|][..|Below(d)|] == q[..|Below(d)|];
    }
  }

  /** No path lies below itself. */
  lemma NotUnderSelf(p: Path)
    ensures !Under(p, p)
  {
  }

  /** A path with no empty component and no trailing slash, or `/`: how the
      source builds the paths it walks. */
  predicate Normal(p: Path) {
    p == "/" || (p != "" && p[|p| - 1] != '/' && forall i :: 0 < i < |p| && p[i] == '/' ==> p[i - 1] != '/')
  }

  /** What a caller of `os.walk` takes from each `(root, dirnames, filenames)`:
      the filenames, the dirnames, or both in either order. */
  datatype Pick = Files | Dirs | DirsFiles | FilesDirs

  /** A filesystem: the entries, the order in which a directory listing
      returns them, and the directories `rmdir` refuses to remove (busy
      mount points, missing permissions). */
  datatype Tree = Tree(entries: map<Path, Entry>, order: seq<Path>, locked: set<Path>) {

    /** Every entry appears in the listing order. */
    ghost predicate Valid() {
      forall p :: p in entries ==> p in order
    }

    /** `os.path.islink`. */
    predicate IsLink(p: Path) { p in entries && entries[p].Link? }

    /** `os.readlink`. */
    function ReadLink(p: Path): Path
      requires IsLink(p)
    {
      entries[p].target
    }

    /** `os.path.lexists`. */
    predicate LExists(p: Path) { p in entries }

    /** `os.path.exists`: a link counts only when its target is present. */
    predicate Exists(p: Path) {
      p in entries && (entries[p].Link? ==> entries[p].target in entries)
    }

    /** `os.path.isdir` on a path that is not a link. */
    predicate IsDir(p: Path) { p in entries && entries[p].Dir? }

    /** `os.path.isfile`: a regular file, or a link to one. */
    predicate IsFile(p: Path) {
      p in entries &&
      (entries[p].File? ||
       (entries[p].Link? && entries[p].target in entries && entries[entries[p].target].File?))
    }

    /** A link whose target is absent. */
    predicate IsBroken(p: Path) { IsLink(p) && ReadLink(p) !in entries }

    predicate InDir(d: Path, p: Path) { p in entries && p != d && Dirname(p) == d }

    /** The elements of `s` that are entries directly inside `d`. */
    function ChildrenIn(s: seq<Path>, d: Path): (r: seq<Path>)
      ensures forall p :: p in r <==> p in s && InDir(d, p)
    {
      if s == [] then [] else (if InDir(d, s[0]) then [s[0]] else []) + ChildrenIn(s[1..], d)
    }

    /** `os.listdir(d)`, as full paths, in listing order. */
    function ListDir(d: Path): (r: seq<Path>)
      ensures forall p :: p in r <==> p in order && InDir(d, p)
    {
      ChildrenIn(order, d)
    }

    /** `p` is a symbolic link whose target is `target`. */
    predicate LinksTo(p: Path, target: Path) { IsLink(p) && ReadLink(p) == target }

    /** The first path of `s` that is a link to `target`. */
    function FirstLinkTo(s: seq<Path>, target: Path): (r: Option<Path>)
      ensures r.Some? ==> r.value in s && LinksTo(r.value, target)
      ensures r.None? <==> forall p :: p in s ==> !LinksTo(p, target)
    {
      if s == [] then None
      else if LinksTo(s[0], target) then Some(s[0])
      else FirstLinkTo(s[1..], target)
    }

    /** The first path of `s` that is a link to `target` directly inside `d`. */
    function FirstChildLinkTo(s: seq<Path>, d: Path, target: Path): (r: Option<Path>)
      ensures r.Some? ==> r.value in s && InDir(d, r.value) && LinksTo(r.value, target)
      ensures r.None? <==> forall p :: p in s ==> !(InDir(d, p) && LinksTo(p, target))
    {
      if s == [] then None
      else if InDir(d, s[0]) && LinksTo(s[0], target) then Some(s[0])
      else FirstChildLinkTo(s[1..], d, target)
    }

    /** Every entry's parent directory is present (the root is its own parent). */
    ghost predicate Rooted() {
      forall p :: p in entries ==> Dirname(p) == p || Dirname(p) == "" || IsDir(Dirname(p))
    }

    /** Every path the tree holds is normalised. */
    ghost predicate NormalPaths() {
      forall p :: p in entries ==> Normal(p)
    }

    /** What every tree the model starts from satisfies. */
    ghost predicate WellFormed() {
      Valid() && Rooted() && "" !in entries
    }

    /** A directory as `os.walk` lists it under dirnames: a directory or a link to one. */
    predicate WalkDir(p: Path) {
      p in entries &&
      (entries[p].Dir? ||
       (entries[p].Link? && entries[p].target in entries && entries[entries[p].target].Dir?))
    }

    /** `p` is listed directly inside `q` and lies below it (for normalised
        paths the second follows from the first; see `ChildBelow`). */
    predicate Inside(q: Path, p: Path) { InDir(q, p) && Under(q, p) }

    /** The elements of `s` directly inside `q` that the walk lists under
        dirnames (`dirs`) or under filenames (not `dirs`). */
    function Select(s: seq<Path>, q: Path, dirs: bool): (r: seq<Path>)
      ensures forall p :: p in r <==> p in s && Inside(q, p) && WalkDir(p) == dirs
    {
      if s == [] then []
      else (if Inside(q, s[0]) && WalkDir(s[0]) == dirs then [s[0]] else []) + Select(s[1..], q, dirs)
    }

    /** The elements of `s` that are directories and not links. */
    function RealDirs(s: seq<Path>): (r: seq<Path>)
      ensures forall p :: p in r <==> p in s && IsDir(p)
    {
      if s == [] then [] else (if IsDir(s[0]) then [s[0]] else []) + RealDirs(s[1..])
    }

    /** The dirnames `os.walk` descends into from `q`: with `followlinks`
        off, the real directories, in listing order. */
    function SubDirs(q: Path): (r: seq<Path>)
      ensures forall c :: c in r <==> c in order && Inside(q, c) && IsDir(c)
    {
      RealDirs(Select(order, q, true))
    }

    /** How many entries lie below `d`: what shrinks as the walk descends. */
    ghost function Count(d: Path): nat {
      |set q | q in entries && Under(d, q)|
    }

    /** The directories a top-down `os.walk(d)` yields as its `root`, in
        order: `d` itself, then the walk of each subdirectory in turn. */
    function Roots(d: Path): (r: seq<Path>)
      ensures forall q :: q in r ==> IsDir(q) && (q == d || Under(d, q))
      ensures IsDir(d) ==> r != [] && r[0] == d
      decreases Count(d), 1
    {
      if !IsDir(d) then [] else [d] + RootsOf(d, SubDirs(d))
    }

    /** The walks of the subdirectories `cs` of `d`, one after the other. */
    function RootsOf(d: Path, cs: seq<Path>): (r: seq<Path>)
      requires forall c :: c in cs ==> c in entries && Under(d, c)
      ensures forall q :: q in r ==> IsDir(q) && Under(d, q)
      decreases Count(d), 0, |cs|
    {
      if cs == [] then []
      else
        CountBelow(this, d, cs[0]);
        UnderTrans(d, cs[0]);
        Roots(cs[0]) + RootsOf(d, cs[1..])
    }

    /** What a caller of `os.walk` takes from each `(root, dirnames, filenames)`. */
    function Level(q: Path, pick: Pick): (r: seq<Path>)
      ensures forall p :: p in r <==> p in order && Inside(q, p) && Picked(pick, p)
    {
      match pick
      case Files => Select(order, q, false)
      case Dirs => Select(order, q, true)
      case DirsFiles => Select(order, q, true) + Select(order, q, false)
      case FilesDirs => Select(order, q, false) + Select(order, q, true)
    }

    predicate Picked(pick: Pick, p: Path) {
      match pick
      case Files => !WalkDir(p)
      case Dirs => WalkDir(p)
      case _ => true
    }

    /** The levels of the roots `qs`, one after the other. */
    function Gather(qs: seq<Path>, pick: Pick): seq<Path>
    {
      if qs == [] then [] else Gather(qs[..|qs| - 1], pick) + Level(qs[|qs| - 1], pick)
    }

    /** What the loop `for root, dirnames, filenames in os.walk(root)` sees,
        as full paths: a path is reached exactly when its parent is one of
        the roots of the walk, and it always lies below `root`. */
    function WalkOf(root: Path, pick: Pick): (r: seq<Path>)
      ensures forall p :: p in r ==> p in order && Dirname(p) in Roots(root) && Picked(pick, p)
      ensures forall p :: p in r ==> p in entries && Under(root, p)
    {
      GatherSound(this, Roots(root), pick);
      ReachedBelow(this, root);
      Gather(Roots(root), pick)
    }

    /** Everything `os.walk(root)` visits, each directory's dirnames before
        its filenames. */
    function Walk(root: Path): (r: seq<Path>)
      ensures forall p :: p in r ==> p in order && p in entries && Under(root, p)
    {
      WalkOf(root, DirsFiles)
    }

    /** The filenames `os.walk(root)` yields, as full paths, in walk order. */
    function WalkFiles(root: Path): (r: seq<Path>)
      ensures forall p :: p in r ==> p in order && p in entries && Under(root, p) && !WalkDir(p)
    {
      WalkOf(root, Files)
    }

    /** Adds or replaces an entry; a new path goes to the end of the listing order. */
    function Put(p: Path, e: Entry): (t: Tree)
      ensures t.entries == entries[p := e] && t.locked == locked
      ensures Valid() ==> t.Valid()
      ensures p in order ==> t.order == order
      ensures Extends(order, t.order)
    {
      Tree(entries[p := e], if p in order then order else order + [p], locked)
    }

    /** `os.remove` / `os.unlink`. */
    function Remove(p: Path): (t: Tree)
      ensures t.entries == entries - {p} && t.locked == locked && t.order == order
      ensures Valid() ==> t.Valid()
    {
      Tree(entries - {p}, order, locked)
    }

    /** `os.rmdir`: fails (None) unless `d` is an empty, unlocked directory. */
    function RmDir(d: Path): (r: Option<Tree>)
      ensures r.Some? <==> IsDir(d) && d !in locked && ListDir(d) == []
      ensures r.Some? ==> r.value == Remove(d)
    {
      if IsDir(d) && d !in locked && ListDir(d) == [] then Some(Remove(d)) else None
    }

    /** `os.makedirs(d, exist_ok=True)`: None when it raises. */
    function MakeDirs(d: Path): (r: Option<Tree>)
      ensures r.Some? ==> r.value.IsDir(d)
      ensures r.Some? ==> r.value.locked == locked
      ensures r.Some? ==> forall p :: p in entries ==> p in r.value.entries && r.value.entries[p] == entries[p]
      ensures r.Some? ==> forall p :: p in r.value.entries && p !in entries ==> r.value.entries[p] == Dir && p != ""
      ensures r.Some? && Valid() ==> r.value.Valid()
      ensures r.Some? ==> Extends(order, r.value.order)
      ensures IsDir(d) ==> r == Some(this)
      ensures d == "" && d !in entries ==> r.None?
      decreases |d|
    {
      if d in entries then (if entries[d].Dir? then Some(this) else None)
      else if d == "" then None
      else
        var h := Dirname(d);
        if h == "" || |h| >= |d| then Some(Put(d, Dir))
        else match MakeDirs(h) {
          case None => None
          case Some(t) => Some(t.Put(d, Dir))
        }
    }
  }

  /** Descending into a subdirectory leaves fewer entries below. */
  lemma CountBelow(t: Tree, d: Path, c: Path)
    requires c in t.entries && Under(d, c)
    ensures t.Count(c) < t.Count(d)
  {
    var inner := set q | q in t.entries && Under(c, q);
    var outer := set q | q in t.entries && Under(d, q);
    UnderTrans(d, c);
    NotUnderSelf(c);
    SubsetCard(inner, outer - {c});
  }

  lemma SubsetCard<T>(a: set<T>, b: set<T>)
    requires a <= b
    ensures |a| <= |b|
    decreases |a|
  {
    if a != {} {
      var x :| x in a;
      SubsetCard(a - {x}, b - {x});
    }
  }

  /** Whatever lies directly inside a root of the walk lies below its top. */
  lemma ReachedBelow(t: Tree, root: Path)
    ensures forall p :: Dirname(p) in t.Roots(root) && t.Inside(Dirname(p), p) ==> Under(root, p)
  {
    forall p | Dirname(p) in t.Roots(root) && t.Inside(Dirname(p), p) ensures Under(root, p) {
      UnderTrans(root, Dirname(p));
    }
  }

  /** The parent of a normalised path that holds a `/` and is not `/`:
      everything before the last `/` (or `/` itself), normalised, with the
      path directly below it. */
  lemma ParentOfNormal(p: Path)
    requires Normal(p) && '/' in p && p != "/"
    ensures 1 <= SplitPoint(p) < |p|
    ensures Dirname(p) == if SplitPoint(p) == 1 then "/" else p[..SplitPoint(p) - 1]
    ensures Normal(Dirname(p)) && Under(Dirname(p), p) && |Dirname(p)| < |p|
  {
    var k := SplitPoint(p);
    var head := p[..k];
    if k == 1 {
      assert head == "/" && AllSlashes(head);
    } else {
      assert p[k - 1] == '/';
      assert p[k - 2] != '/';
      assert !AllSlashes(head) by { assert head[k - 2] != '/'; }
      assert head[..k - 1] == p[..k - 1];
      assert RStripSlashes(p[..k - 1]) == p[..k - 1];
      assert Below(p[..k - 1]) == p[..k];
    }
  }

  /** The parent of a normalised path strictly below `d` is `d` or lies
      below `d` itself. */
  lemma ParentBelow(d: Path, p: Path)
    requires Normal(d) && Normal(p) && Under(d, p)
    ensures '/' in p && p != "/"
    ensures Dirname(p) == d || Under(d, Dirname(p))
  {
    var b := Below(d);
    var m := |b|;
    assert b[m - 1] == '/' && p[..m] == b;
    assert p[m - 1] == '/';
    ParentOfNormal(p);
    var k := SplitPoint(p);
    assert k >= m;
    if k == m {
      if m != 1 {
        assert Dirname(p) == b[..m - 1];
      }
    } else {
      CutBelow(b, p, k - 1);
    }
  }

  /** Cutting `p` after the prefix `b`, just before a `/`, leaves a path
      strictly longer than `b` that starts with it. */
  lemma CutBelow(b: string, p: string, j: nat)
    requires b != [] && b[|b| - 1] == '/' && StartsWith(p, b)
    requires |b| <= j <= |p| && j > 0 && p[j - 1] != '/'
    ensures StartsWith(p[..j], b) && p[..j] != b
  {
    assert p[..j][..|b|] == p[..|b|];
  }

  /** Under the roots `cs` lies everything below each of them. */
  lemma RootsOfHas(t: Tree, d: Path, cs: seq<Path>, c: Path)
    requires forall c :: c in cs ==> c in t.entries && Under(d, c)
    requires c in cs
    ensures forall x :: x in t.Roots(c) ==> x in t.RootsOf(d, cs)
  {
    if cs[0] != c {
      RootsOfHas(t, d, cs[1..], c);
    }
  }

  /** A root of the walk from `d` has its whole walk inside that of `d`. */
  lemma RootsClosed(t: Tree, d: Path, h: Path)
    requires h in t.Roots(d)
    ensures forall x :: x in t.Roots(h) ==> x in t.Roots(d)
    decreases t.Count(d), 1
  {
    if h != d {
      RootsOfClosed(t, d, t.SubDirs(d), h);
    }
  }

  lemma RootsOfClosed(t: Tree, d: Path, cs: seq<Path>, h: Path)
    requires forall c :: c in cs ==> c in t.entries && Under(d, c)
    requires h in t.RootsOf(d, cs)
    ensures forall x :: x in t.Roots(h) ==> x in t.RootsOf(d, cs)
    decreases t.Count(d), 0, |cs|
  {
    CountBelow(t, d, cs[0]);
    if h in t.Roots(cs[0]) {
      RootsClosed(t, cs[0], h);
    } else {
      RootsOfClosed(t, d, cs[1..], h);
    }
  }

  /** In a normalised, rooted tree every directory below `d` is a root of
      the walk from `d`. */
  lemma {:induction false} RootsComplete(t: Tree, d: Path, q: Path)
    requires t.WellFormed() && t.NormalPaths() && Normal(d)
    requires t.IsDir(q) && Under(d, q)
    ensures q in t.Roots(d)
    decreases |q|
  {
    ParentBelow(d, q);
    ParentOfNormal(q);
    var h := Dirname(q);
    assert t.IsDir(h);
    if h != d {
      RootsComplete(t, d, h);
    }
    var cs := t.SubDirs(h);
    assert q in cs;
    RootsOfHas(t, h, cs, q);
    assert q in t.Roots(q);
    assert q in t.Roots(h) by {
      assert t.Roots(h) == [h] + t.RootsOf(h, cs);
    }
    RootsClosed(t, d, h);
  }

  /** In a normalised, rooted tree the walk of a normalised path reaches
      every entry below it that the caller picks: the walk decides only the
      order. */
  lemma WalkComplete(t: Tree, root: Path, pick: Pick)
    ensures t.WellFormed() && t.NormalPaths() && Normal(root) ==>
              forall p :: p in t.entries && Under(root, p) && t.Picked(pick, p) ==> p in t.WalkOf(root, pick)
  {
    forall p | t.WellFormed() && t.NormalPaths() && Normal(root) && p in t.entries && Under(root, p) && t.Picked(pick, p)
      ensures p in t.WalkOf(root, pick)
    {
      ParentBelow(root, p);
      ParentOfNormal(p);
      var h := Dirname(p);
      assert t.IsDir(h);
      if h != root {
        RootsComplete(t, root, h);
      }
      GatherHas(t, t.Roots(root), pick, p);
    }
  }

  lemma GatherSnoc(t: Tree, s: seq<Path>, x: Path, pick: Pick)
    ensures t.Gather(s + [x], pick) == t.Gather(s, pick) + t.Level(x, pick)
  {
    assert (s + [x])[..|s|] == s;
  }

  lemma {:induction false} GatherAppend(t: Tree, a: seq<Path>, b: seq<Path>, pick: Pick)
    ensures t.Gather(a + b, pick) == t.Gather(a, pick) + t.Gather(b, pick)
    decreases |b|
  {
    if b == [] {
      assert a + b == a;
    } else {
      var b0, x := b[..|b| - 1], b[|b| - 1];
      assert b == b0 + [x];
      assert a + b == (a + b0) + [x];
      GatherAppend(t, a, b0, pick);
      GatherSnoc(t, a + b0, x, pick);
      GatherSnoc(t, b0, x, pick);
      SeqAssoc(t.Gather(a, pick), t.Gather(b0, pick), t.Level(x, pick));
    }
  }

  lemma SeqAssoc<T>(a: seq<T>, b: seq<T>, c: seq<T>)
    ensures (a + b) + c == a + (b + c)
  {
  }

  /** The levels of `qs` hold only picked entries directly inside one of them. */
  lemma {:induction false} GatherSound(t: Tree, qs: seq<Path>, pick: Pick)
    ensures forall p :: p in t.Gather(qs, pick) ==>
              p in t.order && t.Inside(Dirname(p), p) && Dirname(p) in qs && t.Picked(pick, p)
    decreases |qs|
  {
    if qs != [] {
      GatherSound(t, qs[..|qs| - 1], pick);
    }
  }

  /** The levels of `qs` hold every picked entry directly inside one of them. */
  lemma {:induction false} GatherHas(t: Tree, qs: seq<Path>, pick: Pick, p: Path)
    requires Dirname(p) in qs && p in t.order && t.Inside(Dirname(p), p) && t.Picked(pick, p)
    ensures p in t.Gather(qs, pick)
    decreases |qs|
  {
    if qs[|qs| - 1] != Dirname(p) {
      assert Dirname(p) in qs[..|qs| - 1];
      GatherHas(t, qs[..|qs| - 1], pick, p);
    }
  }

  /** The levels of the first `i + 1` roots: those of the first `i`, then
      that of root `i`. */
  lemma GatherStep(t: Tree, qs: seq<Path>, i: nat, pick: Pick)
    requires i < |qs|
    ensures t.Gather(qs[..i + 1], pick) == t.Gather(qs[..i], pick) + t.Level(qs[i], pick)
  {
    assert qs[..i + 1][..i] == qs[..i];
  }

  /** A top-down walk starts with what it takes from its top: every entry
      of the top directory comes before anything deeper. */
  lemma WalkStartsAtTop(t: Tree, root: Path, pick: Pick)
    requires t.IsDir(root)
    ensures Extends(t.Level(root, pick), t.WalkOf(root, pick))
  {
    var rest := t.RootsOf(root, t.SubDirs(root));
    var top := t.Level(root, pick);
    assert t.Roots(root) == [root] + rest;
    GatherAppend(t, [root], rest, pick);
    assert t.Gather([root], pick) == top by {
      assert [root][..0] == [];
    }
    var w := t.WalkOf(root, pick);
    assert w == top + t.Gather(rest, pick);
    assert w[..|top|] == top;
  }

  /** Regular files present in `a` are regular files in `b`. */
  ghost predicate KeepsFiles(a: Tree, b: Tree) {
    forall p :: p in a.entries && a.entries[p] == File ==> p in b.entries && b.entries[p] == File
  }

  /** `b` lists everything `a` does, in the same order, possibly followed by more. */
  predicate Extends<T(==)>(a: seq<T>, b: seq<T>) { |a| <= |b| && b[..|a|] == a }

  /** `a` and `b` hold exactly the same links to `target`. */
  ghost predicate SameLinksTo(a: Tree, b: Tree, target: Path) {
    forall p :: a.LinksTo(p, target) <==> b.LinksTo(p, target)
  }

  lemma {:induction false} FirstLinkToOfChildren(t: Tree, s: seq<Path>, d: Path, target: Path)
    ensures t.FirstLinkTo(t.ChildrenIn(s, d), target) == t.FirstChildLinkTo(s, d, target)
  {
    if s != [] {
      FirstLinkToOfChildren(t, s[1..], d, target);
      var c := t.ChildrenIn(s, d);
      if t.InDir(d, s[0]) {
        assert c == [s[0]] + t.ChildrenIn(s[1..], d);
        assert c[1..] == t.ChildrenIn(s[1..], d);
      } else {
        assert c == t.ChildrenIn(s[1..], d);
      }
    }
  }

  lemma {:induction false} FirstLinkToAgree(a: Tree, b: Tree, s: seq<Path>, target: Path)
    requires SameLinksTo(a, b, target)
    ensures a.FirstLinkTo(s, target) == b.FirstLinkTo(s, target)
  {
    if s != [] {
      FirstLinkToAgree(a, b, s[1..], target);
    }
  }

  /** Scanning a directory for links to `target` gives the same answer in
      any tree that holds the same such links and extends the listing order. */
  lemma ScanDirStable(a: Tree, b: Tree, d: Path, target: Path)
    requires a.Valid() && SameLinksTo(a, b, target) && Extends(a.order, b.order)
    ensures b.FirstLinkTo(b.ListDir(d), target) == a.FirstLinkTo(a.ListDir(d), target)
  {
    ListDirFirst(a, d, target);
    ListDirFirst(b, d, target);
    ExtendsSplit(a.order, b.order);
    LinksListed(a, b, target);
    FirstChildExtend(a, b, a.order, b.order[|a.order|..], d, target);
  }

  lemma ExtendsSplit<T>(a: seq<T>, b: seq<T>)
    requires Extends(a, b)
    ensures b == a + b[|a|..]
  {
  }

  /** Every link to `target` in `b` is an entry of `a`, hence listed in it. */
  lemma LinksListed(a: Tree, b: Tree, target: Path)
    requires a.Valid() && SameLinksTo(a, b, target)
    ensures forall p :: b.LinksTo(p, target) ==> p in a.order
  {
    forall p | b.LinksTo(p, target) ensures p in a.order {
      assert a.LinksTo(p, target);
    }
  }

  /** The first link to `target` in the listing of `d` is the first child of
      `d` in listing order that links to it. */
  lemma ListDirFirst(t: Tree, d: Path, target: Path)
    ensures t.FirstLinkTo(t.ListDir(d), target) == t.FirstChildLinkTo(t.order, d, target)
  {
    FirstLinkToOfChildren(t, t.order, d, target);
  }

  /** Appending paths none of which is a new child link to `target` does
      not change the first one found. */
  lemma {:induction false} FirstChildExtend(a: Tree, b: Tree, s: seq<Path>, x: seq<Path>, d: Path, target: Path)
    requires SameLinksTo(a, b, target)
    requires forall p :: p in x && b.InDir(d, p) && b.LinksTo(p, target) ==> p in s
    ensures b.FirstChildLinkTo(s + x, d, target) == a.FirstChildLinkTo(s, d, target)
    decreases |s|
  {
    if s == [] {
      assert s + x == x;
    } else {
      assert (s + x)[0] == s[0] && (s + x)[1..] == s[1..] + x;
      if !(b.InDir(d, s[0]) && b.LinksTo(s[0], target)) {
        FirstChildExtend(a, b, s[1..], x, d, target);
      }
    }
  }

  /** A rooted tree holds nothing directly inside a path that is not one of
      its directories. */
  lemma ScanMissingDir(a: Tree, d: Path, target: Path)
    requires a.Valid() && a.Rooted() && !a.IsDir(d) && d != ""
    ensures a.FirstLinkTo(a.ListDir(d), target).None?
  {
    forall p | p in a.ListDir(d) ensures !a.LinksTo(p, target) {
      assert a.InDir(d, p);
    }
  }

  /** Walks `cands` in order and returns the first link to `target`. */
  method FindLinkTo(t: Tree, cands: seq<Path>, target: Path) returns (r: Option<Path>)
    ensures r == t.FirstLinkTo(cands, target)
  {
    var i := 0;
    while i < |cands|
      invariant 0 <= i <= |cands|
      invariant t.FirstLinkTo(cands, target) == t.FirstLinkTo(cands[i..], target)
    {
      assert cands[i..][1..] == cands[i + 1..];
      if t.IsLink(cands[i]) && t.ReadLink(cands[i]) == target {
        return Some(cands[i]);
      }
      i := i + 1;
    }
    return None;
  }
}
