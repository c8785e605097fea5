/** Restoring what writeArchive produced: exactly the surviving part of the tree, and only
    when that part holds no symbolic link. */
module RoundTrip {
  import opened Wrappers
  import opened Paths
  import opened Strings
  import opened Archive

  /** The items that the walk writes for the children of `parent`, with the directories that
      the replay creates on the way to an entry whose own directory was skipped. */
  ghost function Emitted(parent: Path, f: Forest): Fs
    decreases f
  {
    match f
    case Nil => map[]
    case Cons(n, node, rest) => EmittedNode(parent + [n], node) + Emitted(parent, rest)
  }

  ghost function EmittedNode(p: Path, node: Node): Fs
    decreases node
  {
    var below := if node.Dir? then Emitted(p, node.children) else map[];
    if !Skipped(Join(p)) then map[p := ItemOf(node)] + below
    else if WalkNode(p, node) != [] then below[p := DirItem]
    else below
  }

  /** The directories on the way to `p`, `p` included. */
  ghost function Dirs(p: Path): Fs
    decreases |p|
  {
    if p == [] then map[] else Dirs(p[..|p| - 1])[p := DirItem]
  }

  ghost predicate Below(p: Path, q: Path) {
    |q| >= |p| && q[..|p|] == p
  }

  /** Nothing on the way to `p` is anything but a directory. */
  ghost predicate Passable(fs: Fs, p: Path) {
    forall k :: 0 < k <= |p| && p[..k] in fs ==> fs[p[..k]].DirItem?
  }

  /** `fs` holds nothing at or below the children named by `f`. */
  ghost predicate Clear(fs: Fs, parent: Path, f: Forest) {
    forall q :: q in fs && |q| > |parent| && q[..|parent|] == parent ==> q[|parent|] !in Names(f)
  }

  ghost predicate NoLinkEntry(entries: seq<Entry>) {
    forall i :: 0 <= i < |entries| ==> !entries[i].kind.LinkEntry?
  }

  // ------------------------------------------------------------ small facts

  lemma {:induction false} ReplayAppend(tmp: string, fs: Fs, a: seq<Entry>, b: seq<Entry>)
    ensures Replay(tmp, fs, a + b) ==
            match Replay(tmp, fs, a) { case Failure(e) => Failure(e) case Success(g) => Replay(tmp, g, b) }
    decreases |a|
  {
    if a == [] {
      assert a + b == b;
    } else {
      assert (a + b)[1..] == a[1..] + b && (a + b)[0] == a[0];
      match Extract(tmp, fs, a[0])
      case Failure(_) =>
      case Success(g) => ReplayAppend(tmp, g, a[1..], b);
    }
  }

  lemma {:induction false} ReplayStopsAtLink(tmp: string, fs: Fs, entries: seq<Entry>)
    requires !NoLinkEntry(entries)
    ensures Replay(tmp, fs, entries).Failure?
    decreases |entries|
  {
    if !entries[0].kind.LinkEntry? {
      var i :| 0 <= i < |entries| && entries[i].kind.LinkEntry?;
      assert entries[1..][i - 1].kind.LinkEntry?;
      match Extract(tmp, fs, entries[0])
      case Failure(_) =>
      case Success(g) => ReplayStopsAtLink(tmp, g, entries[1..]);
    }
  }

  lemma {:induction false} DirsDomain(p: Path, q: Path)
    ensures q in Dirs(p) <==> 0 < |q| <= |p| && p[..|q|] == q
    ensures q in Dirs(p) ==> Dirs(p)[q] == DirItem
    decreases |p|
  {
    if p == [] {
    } else {
      DirsDomain(p[..|p| - 1], q);
      if |q| < |p| {
        assert p[..|p| - 1][..|q|] == p[..|q|];
      } else if |q| == |p| {
        assert p[..|q|] == p;
      }
    }
  }

  lemma {:induction false} MkdirAllAdds(fs: Fs, p: Path)
    requires Passable(fs, p)
    ensures MkdirAll(fs, p) == Success(fs + Dirs(p))
    decreases |p|
  {
    if p != [] {
      var up := p[..|p| - 1];
      forall k | 0 < k <= |up| && up[..k] in fs ensures fs[up[..k]].DirItem? {
        assert up[..k] == p[..k];
      }
      MkdirAllAdds(fs, up);
      var g := fs + Dirs(up);
      DirsDomain(up, p);
      assert p[..|p|] == p;
      if p in g {
        assert fs[p[..|p|]].DirItem?;
        assert fs + Dirs(p) == g;
      } else {
        assert fs + Dirs(p) == g[p := DirItem];
      }
    } else {
      assert fs + Dirs(p) == fs;
    }
  }

  /** Emitted paths lie below one of the named children. */
  lemma {:induction false} EmittedDomain(parent: Path, f: Forest, q: Path)
    requires q in Emitted(parent, f)
    ensures |q| > |parent| && q[..|parent|] == parent && q[|parent|] in Names(f)
    decreases f
  {
    match f
    case Cons(n, node, rest) =>
      if q in EmittedNode(parent + [n], node) {
        EmittedNodeDomain(parent + [n], node, q);
        assert q[..|parent|] == (parent + [n])[..|parent|] == parent;
        assert q[|parent|] == q[..|parent| + 1][|parent|];
      } else {
        EmittedDomain(parent, rest, q);
      }
  }

  lemma {:induction false} EmittedNodeDomain(p: Path, node: Node, q: Path)
    requires q in EmittedNode(p, node)
    ensures Below(p, q)
    decreases node
  {
    if node.Dir? && q in Emitted(p, node.children) {
      EmittedDomain(p, node.children, q);
    }
  }

  // -------------------------------------------------------------- the replay

  /** One written entry is replayed as the item it came from. */
  lemma ExtractOwn(tmp: string, rooted: bool, st: Path, ups: nat, fs: Fs, p: Path, node: Node)
    requires Staging(tmp, rooted, st, ups)
    requires p != [] && NormalPath(p) && !node.Link?
    requires Passable(fs, p[..|p| - 1]) && p !in fs
    ensures Extract(tmp, fs, EntryFor(p, node)) == Success(fs + Dirs(p[..|p| - 1]) + map[p := ItemOf(node)])
  {
    WrittenNameAccepted(tmp, rooted, st, ups, p);
    var up := p[..|p| - 1];
    MkdirAllAdds(fs, up);
    DirsDomain(up, p);
    var g := fs + Dirs(up);
    assert p !in g;
    assert g[p := ItemOf(node)] == g + map[p := ItemOf(node)];
    assert MkdirAll(fs, up) == Success(g);
  }

  lemma PassableAfter(fs: Fs, p: Path)
    requires p != [] && Passable(fs, p[..|p| - 1])
    requires p in fs ==> fs[p].DirItem?
    ensures Passable(fs, p)
  {
    forall k | 0 < k <= |p| && p[..k] in fs ensures fs[p[..k]].DirItem? {
      if k == |p| {
        assert p[..k] == p;
      } else {
        assert p[..k] == p[..|p| - 1][..k];
      }
    }
  }

  ghost function Reached(entries: seq<Entry>, parent: Path): Fs {
    if entries == [] then map[] else Dirs(parent)
  }

  lemma NoLinkSplit(a: seq<Entry>, b: seq<Entry>)
    requires NoLinkEntry(a + b)
    ensures NoLinkEntry(a) && NoLinkEntry(b)
  {
    forall i | 0 <= i < |a| ensures !a[i].kind.LinkEntry? {
      assert (a + b)[i] == a[i];
    }
    forall i | 0 <= i < |b| ensures !b[i].kind.LinkEntry? {
      assert (a + b)[|a| + i] == b[i];
    }
  }

  lemma {:induction false} ReplayForest(tmp: string, rooted: bool, st: Path, ups: nat, fs: Fs, parent: Path, f: Forest)
    requires Staging(tmp, rooted, st, ups)
    requires NormalPath(parent) && WellFormed(f)
    requires Passable(fs, parent) && Clear(fs, parent, f)
    requires NoLinkEntry(Walk(parent, f))
    ensures Replay(tmp, fs, Walk(parent, f)) == Success(fs + Emitted(parent, f) + Reached(Walk(parent, f), parent))
    decreases f, 1
  {
    match f
    case Nil =>
      assert fs + map[] + map[] == fs;
    case Cons(n, node, rest) =>
      var p := parent + [n];
      var first, more := WalkNode(p, node), Walk(parent, rest);
      NoLinkSplit(first, more);
      assert p[..|p| - 1] == parent;
      ClearNode(fs, parent, f);
      ReplayNode(tmp, rooted, st, ups, fs, p, node);
      var g := fs + EmittedNode(p, node) + Reached(first, parent);
      AfterNode(fs, parent, f);
      ReplayForest(tmp, rooted, st, ups, g, parent, rest);
      ReplayAppend(tmp, fs, first, more);
      CombineReached(fs, parent, f);
  }

  lemma ClearNode(fs: Fs, parent: Path, f: Forest)
    requires f.Cons? && Clear(fs, parent, f)
    ensures forall q :: q in fs ==> !Below(parent + [f.name], q)
  {
    var p := parent + [f.name];
    forall q | q in fs ensures !Below(p, q) {
      if |q| >= |p| {
        assert q[..|parent|] == q[..|p|][..|parent|];
        assert q[|parent|] == q[..|p|][|parent|];
      }
    }
  }

  lemma AfterNode(fs: Fs, parent: Path, f: Forest)
    requires f.Cons? && WellFormed(f)
    requires Passable(fs, parent) && Clear(fs, parent, f)
    ensures var p := parent + [f.name];
            var g := fs + EmittedNode(p, f.node) + Reached(WalkNode(p, f.node), parent);
            Passable(g, parent) && Clear(g, parent, f.rest)
  {
    var p := parent + [f.name];
    var e, d := EmittedNode(p, f.node), Reached(WalkNode(p, f.node), parent);
    var g := fs + e + d;
    forall k | 0 < k <= |parent| && parent[..k] in g ensures g[parent[..k]].DirItem? {
      if parent[..k] in e {
        EmittedNodeDomain(p, f.node, parent[..k]);
      }
      DirsDomain(parent, parent[..k]);
    }
    forall q | q in g && |q| > |parent| && q[..|parent|] == parent ensures q[|parent|] !in Names(f.rest) {
      DirsDomain(parent, q);
      if q in e {
        EmittedNodeDomain(p, f.node, q);
        assert q[|parent|] == q[..|p|][|parent|];
      }
    }
  }

  lemma CombineReached(fs: Fs, parent: Path, f: Forest)
    requires f.Cons?
    ensures var p := parent + [f.name];
            var first, more := WalkNode(p, f.node), Walk(parent, f.rest);
            fs + EmittedNode(p, f.node) + Reached(first, parent) + Emitted(parent, f.rest) + Reached(more, parent)
            == fs + Emitted(parent, f) + Reached(Walk(parent, f), parent)
  {
    var p := parent + [f.name];
    var first, more := WalkNode(p, f.node), Walk(parent, f.rest);
    var d, e := Dirs(parent), Emitted(parent, f.rest);
    assert Walk(parent, f) == first + more;
    forall q | q in e ensures q !in d {
      EmittedDomain(parent, f.rest, q);
      DirsDomain(parent, q);
    }
    var e1 := EmittedNode(p, f.node);
    assert Emitted(parent, f) == e1 + e;
    Shuffle(fs, e1, Reached(first, parent), e, Reached(more, parent), d);
    assert Reached(first, parent) + Reached(more, parent) == Reached(first + more, parent) by {
      assert d + d == d && d + map[] == d && map[] + d == d;
    }
  }

  lemma Shuffle(fs: Fs, e1: Fs, d1: Fs, e2: Fs, d2: Fs, d: Fs)
    requires e2.Keys !! d.Keys
    requires d1 in {map[], d} && d2 in {map[], d}
    ensures fs + e1 + d1 + e2 + d2 == fs + (e1 + e2) + (d1 + d2)
  {
  }

  lemma {:induction false} ReplayNode(tmp: string, rooted: bool, st: Path, ups: nat, fs: Fs, p: Path, node: Node)
    requires Staging(tmp, rooted, st, ups)
    requires p != [] && NormalPath(p) && (node.Dir? ==> WellFormed(node.children))
    requires Passable(fs, p[..|p| - 1]) && forall q :: q in fs ==> !Below(p, q)
    requires NoLinkEntry(WalkNode(p, node))
    ensures Replay(tmp, fs, WalkNode(p, node)) ==
            Success(fs + EmittedNode(p, node) + Reached(WalkNode(p, node), p[..|p| - 1]))
    decreases node, 0
  {
    var up := p[..|p| - 1];
    var own := if Skipped(Join(p)) then [] else [EntryFor(p, node)];
    var inner := if node.Dir? then Walk(p, node.children) else [];
    var below := if node.Dir? then Emitted(p, node.children) else map[];
    NoLinkSplit(own, inner);
    assert Below(p, p);
    var g := fs;
    if own != [] {
      assert !own[0].kind.LinkEntry?;
      ExtractOwn(tmp, rooted, st, ups, fs, p, node);
      g := fs + Dirs(up) + map[p := ItemOf(node)];
      assert own[1..] == [];
      assert Replay(tmp, g, []) == Success(g);
      assert Replay(tmp, fs, own) == Success(g);
    } else {
      assert Replay(tmp, fs, own) == Success(g);
    }
    ReplayAppend(tmp, fs, own, inner);
    if node.Dir? {
      NodeReady(fs, g, p, node, own);
      ReplayForest(tmp, rooted, st, ups, g, p, node.children);
    }
    NodeResult(fs, p, node);
  }

  lemma NodeReady(fs: Fs, g: Fs, p: Path, node: Node, own: seq<Entry>)
    requires p != [] && node.Dir?
    requires Passable(fs, p[..|p| - 1]) && forall q :: q in fs ==> !Below(p, q)
    requires g == if own == [] then fs else fs + Dirs(p[..|p| - 1]) + map[p := DirItem]
    ensures Passable(g, p) && Clear(g, p, node.children)
  {
    var up := p[..|p| - 1];
    assert Below(p, p);
    forall k | 0 < k <= |up| && up[..k] in g ensures g[up[..k]].DirItem? {
      DirsDomain(up, up[..k]);
    }
    PassableAfter(g, p);
    forall q | q in g && |q| > |p| ensures q[..|p|] != p {
      DirsDomain(up, q);
      assert q in fs ==> !Below(p, q);
    }
  }

  lemma NodeResult(fs: Fs, p: Path, node: Node)
    requires p != [] && forall q :: q in fs ==> !Below(p, q)
    ensures var up := p[..|p| - 1];
            var skip := Skipped(Join(p));
            var inner := if node.Dir? then Walk(p, node.children) else [];
            var below := if node.Dir? then Emitted(p, node.children) else map[];
            var g := if skip then fs else fs + Dirs(up) + map[p := ItemOf(node)];
            (if node.Dir? then g + below + Reached(inner, p) else g)
            == fs + EmittedNode(p, node) + Reached(WalkNode(p, node), up)
  {
    var up := p[..|p| - 1];
    var below := if node.Dir? then Emitted(p, node.children) else map[];
    forall q | q in below ensures |q| > |p| {
      EmittedDomain(p, node.children, q);
    }
    forall q ensures q in Dirs(up) ==> |q| < |p| {
      DirsDomain(up, q);
    }
    if Skipped(Join(p)) {
      SkippedResult(fs, p, node, below);
    } else {
      WrittenResult(fs, p, node, below);
    }
  }

  lemma WrittenResult(fs: Fs, p: Path, node: Node, below: Fs)
    requires p != [] && !Skipped(Join(p)) && below == if node.Dir? then Emitted(p, node.children) else map[]
    requires forall q :: q in below ==> |q| > |p|
    requires forall q :: q in Dirs(p[..|p| - 1]) ==> |q| < |p|
    ensures var d := Dirs(p[..|p| - 1]);
            var g := fs + d + map[p := ItemOf(node)];
            (if node.Dir? then g + below + Reached(Walk(p, node.children), p) else g)
            == fs + EmittedNode(p, node) + Reached(WalkNode(p, node), p[..|p| - 1])
  {
    var d := Dirs(p[..|p| - 1]);
    assert EmittedNode(p, node) == map[p := ItemOf(node)] + below;
    assert WalkNode(p, node) != [];
    if node.Dir? {
      NodeShuffle(fs, p, DirItem, below, d, Reached(Walk(p, node.children), p));
    } else {
      NodeShuffle(fs, p, ItemOf(node), below, d, map[]);
      EmptyUnion(fs + d + map[p := ItemOf(node)], below, map[]);
    }
  }

  lemma SkippedResult(fs: Fs, p: Path, node: Node, below: Fs)
    requires p != [] && Skipped(Join(p)) && below == if node.Dir? then Emitted(p, node.children) else map[]
    requires forall q :: q in below ==> |q| > |p|
    requires forall q :: q in Dirs(p[..|p| - 1]) ==> |q| < |p|
    ensures (if node.Dir? then fs + below + Reached(Walk(p, node.children), p) else fs)
            == fs + EmittedNode(p, node) + Reached(WalkNode(p, node), p[..|p| - 1])
  {
    var d := Dirs(p[..|p| - 1]);
    var inner := if node.Dir? then Walk(p, node.children) else [];
    assert WalkNode(p, node) == inner;
    if inner == [] {
      assert EmittedNode(p, node) == below;
      if !node.Dir? {
        EmptyUnion(fs, below, map[]);
      }
    } else {
      assert EmittedNode(p, node) == below[p := DirItem];
      assert Dirs(p) == d[p := DirItem];
      SkippedShuffle(fs, p, below, d);
    }
  }

  lemma EmptyUnion(fs: Fs, x: Fs, y: Fs)
    requires x == map[] && y == map[]
    ensures fs + x + y == fs
  {
  }

  lemma NodeShuffle(fs: Fs, p: Path, item: Item, below: Fs, dirs: Fs, again: Fs)
    requires forall q :: q in below ==> |q| > |p|
    requires forall q :: q in dirs ==> |q| < |p|
    requires again == map[] || (again == dirs[p := DirItem] && item == DirItem)
    ensures fs + dirs + map[p := item] + below + again == fs + (map[p := item] + below) + dirs
  {
  }

  lemma SkippedShuffle(fs: Fs, p: Path, below: Fs, dirs: Fs)
    requires forall q :: q in below ==> |q| > |p|
    requires forall q :: q in dirs ==> |q| < |p|
    ensures fs + below + dirs[p := DirItem] == fs + below[p := DirItem] + dirs
  {
  }

  // ------------------------------------------------ what was emitted is what survives

  lemma {:induction false} FlatDomain(parent: Path, f: Forest, q: Path)
    requires q in Flat(parent, f)
    ensures |q| > |parent| && q[..|parent|] == parent && q[|parent|] in Names(f)
    decreases f
  {
    match f
    case Cons(n, node, rest) =>
      var p := parent + [n];
      if q in FlatNode(p, node) {
        if q != p {
          FlatDomain(p, node.children, q);
          assert q[..|parent|] == q[..|p|][..|parent|] && q[|parent|] == q[..|p|][|parent|];
        }
      } else {
        FlatDomain(parent, rest, q);
      }
  }

  /** The string tests of the walk callback, read on components. */
  lemma SkippedOnComponents(p: Path)
    requires p != [] && NormalPath(p)
    ensures Skipped(Join(p)) <==> p == [RCON_ENV] || p == [RCON_YAML] || (|p| >= 2 && p[0] == "logs")
  {
    CredentialNames();
    SingleName(p, RCON_ENV);
    SingleName(p, RCON_YAML);
    LogsPrefix(p);
  }

  lemma CredentialNames()
    ensures NoSlash(RCON_ENV) && NoSlash(RCON_YAML)
  {
  }

  lemma LogsPrefix(p: Path)
    requires p != [] && NormalPath(p)
    ensures HasPrefix(Join(p), "logs/") <==> |p| >= 2 && p[0] == "logs"
  {
    assert NoSlash("logs");
    FirstComponent(p, "logs");
    LogsSlash();
  }

  lemma LogsSlash()
    ensures "logs" + "/" == "logs/"
  {
  }

  lemma SingleName(p: Path, c: string)
    requires p != [] && NormalPath(p) && NoSlash(c)
    ensures Join(p) == c <==> p == [c]
  {
    assert Join([c]) == c;
    JoinInjective(p, [c]);
  }

  lemma FirstComponent(p: Path, c: string)
    requires p != [] && NormalPath(p) && NoSlash(c)
    ensures HasPrefix(Join(p), c + "/") <==> |p| >= 2 && p[0] == c
  {
    var s := Join(p);
    if HasPrefix(s, c + "/") {
      PrefixIsFirst(p, c, s[|c| + 1..]);
    }
    if |p| >= 2 && p[0] == c {
      assert s == c + "/" + Join(p[1..]);
      assert s[..|c| + 1] == c + "/";
    }
  }

  lemma PrefixIsFirst(p: Path, c: string, rest: string)
    requires p != [] && NormalPath(p) && NoSlash(c) && Join(p) == c + "/" + rest
    ensures |p| >= 2 && p[0] == c
  {
    SplitJoin(p);
    SplitSlash(c, rest);
    SplitNoSlash(c);
    assert p == [c] + Components(rest);
  }

  /** Below logs/ nothing is written. */
  lemma {:induction false} LogsSilent(parent: Path, f: Forest)
    requires parent != [] && parent[0] == "logs" && NormalPath(parent) && WellFormed(f)
    ensures Walk(parent, f) == [] && Emitted(parent, f) == map[]
    decreases f
  {
    match f
    case Nil =>
    case Cons(n, node, rest) =>
      var p := parent + [n];
      SkippedOnComponents(p);
      LogsSilent(parent, rest);
      if node.Dir? {
        LogsSilent(p, node.children);
      }
  }

  /** Anywhere else below the root everything is written. */
  lemma {:induction false} BelowRootComplete(parent: Path, f: Forest)
    requires parent != [] && parent[0] != "logs" && NormalPath(parent) && WellFormed(f)
    ensures Emitted(parent, f) == Flat(parent, f)
    ensures Walk(parent, f) == [] <==> f.Nil?
    decreases f
  {
    match f
    case Nil =>
    case Cons(n, node, rest) =>
      var p := parent + [n];
      SkippedOnComponents(p);
      BelowRootComplete(parent, rest);
      if node.Dir? {
        BelowRootComplete(p, node.children);
      }
  }

  ghost function KeptNode(n: string, node: Node): Fs {
    var fs := FlatNode([n], node);
    if n == "logs" then map[[n] := ItemOf(node)]
    else if (n == RCON_ENV || n == RCON_YAML) && (!node.Dir? || node.children.Nil?) then map[]
    else fs
  }

  lemma EmittedNodeAtRoot(n: string, node: Node)
    requires Normal(n) && (node.Dir? ==> WellFormed(node.children))
    ensures EmittedNode([n], node) == KeptNode(n, node)
  {
    SkippedOnComponents([n]);
    assert NormalPath([n]);
    if node.Dir? {
      if n == "logs" {
        LogsSilent([n], node.children);
      } else {
        BelowRootComplete([n], node.children);
        DirectoryFirst([n], node.children);
      }
    }
  }

  lemma DirectoryFirst(p: Path, f: Forest)
    ensures Flat(p, f)[p := DirItem] == map[p := DirItem] + Flat(p, f)
  {
    forall q | q in Flat(p, f) ensures q != p {
      FlatDomain(p, f, q);
    }
  }

  lemma NodeSurvivors(fs: Fs, n: string, node: Node, q: Path)
    requires Normal(n)
    requires q in FlatNode([n], node)
    requires forall x :: x in FlatNode([n], node) ==> x in fs && fs[x] == FlatNode([n], node)[x]
    requires forall x :: x in fs && |x| > 1 && x[0] == n ==> x in FlatNode([n], node)
    ensures Survives(fs, q) <==> q in KeptNode(n, node)
    ensures q in KeptNode(n, node) ==> KeptNode(n, node)[q] == fs[q]
  {
    FlatNodeDomain([n], node, q);
    FlatNodeSelf([n], node);
    assert q[..1] == [n];
    if q == [RCON_ENV] || q == [RCON_YAML] {
      assert q == [n];
      if node.Dir? && node.children.Cons? {
        var c := [n] + [node.children.name];
        FirstChild([n], node.children);
        assert c in FlatNode([n], node) && c[..1] == q;
        assert HasChild(fs, q);
      } else if HasChild(fs, q) {
        var c :| c in fs && |c| > |q| && c[..|q|] == q;
        assert c[0] == c[..1][0] == n;
        FlatNodeDomain([n], node, c);
      }
    } else if q != [n] {
      FlatDomain([n], node.children, q);
      assert q[0] == n;
    }
  }

  lemma FirstChild(parent: Path, f: Forest)
    requires f.Cons?
    ensures parent + [f.name] in Flat(parent, f)
  {
    assert parent + [f.name] in FlatNode(parent + [f.name], f.node);
  }

  lemma FlatNodeSelf(p: Path, node: Node)
    ensures p in FlatNode(p, node) && FlatNode(p, node)[p] == ItemOf(node)
  {
    if node.Dir? && p in Flat(p, node.children) {
      FlatDomain(p, node.children, p);
    }
  }

  lemma FlatNodeDomain(p: Path, node: Node, q: Path)
    requires q in FlatNode(p, node)
    ensures Below(p, q)
    ensures q != p ==> node.Dir? && q in Flat(p, node.children)
  {
    if q != p {
      FlatDomain(p, node.children, q);
    }
  }

  /** Pointwise: an emitted path is a surviving path of any content that agrees with the tree. */
  lemma {:induction false} RootSurvivors(fs: Fs, f: Forest, q: Path)
    requires WellFormed(f)
    requires q in Flat([], f)
    requires forall x :: x in Flat([], f) ==> x in fs && fs[x] == Flat([], f)[x]
    requires forall x :: x in fs && |x| > 0 && x[0] in Names(f) ==> x in Flat([], f)
    ensures Survives(fs, q) <==> q in Emitted([], f)
    ensures q in Emitted([], f) ==> Emitted([], f)[q] == fs[q]
    decreases f
  {
    match f
    case Cons(n, node, rest) =>
      assert [] + [n] == [n];
      var here, there := FlatNode([n], node), Flat([], rest);
      forall x | x in there ensures x !in here && |x| > 0 && x[0] != n {
        FlatDomain([], rest, x);
        assert x[0] == x[..1][0];
        if x in here {
          FlatNodeDomain([n], node, x);
        }
      }
      forall x | x in here ensures |x| > 0 && x[0] == n {
        FlatNodeDomain([n], node, x);
        assert x[0] == x[..1][0];
      }
      EmittedNodeAtRoot(n, node);
      if q in Emitted([], rest) {
        EmittedDomain([], rest, q);
      }
      if q in here {
        forall x | x in fs && |x| > 1 && x[0] == n ensures x in here {
          assert x in Flat([], f);
        }
        NodeSurvivors(fs, n, node, q);
      } else {
        assert q in there && q[0] == q[..1][0];
        if q in EmittedNode([n], node) {
          EmittedNodeDomain([n], node, q);
        }
        RootSurvivors(fs, rest, q);
      }
  }

  lemma {:induction false} EmittedInFlat(parent: Path, f: Forest, q: Path)
    requires q in Emitted(parent, f)
    ensures q in Flat(parent, f)
    decreases f, 1
  {
    match f
    case Cons(n, node, rest) =>
      if q in EmittedNode(parent + [n], node) {
        if node.Dir? && q in Emitted(parent + [n], node.children) {
          EmittedInFlat(parent + [n], node.children, q);
        }
      } else {
        EmittedInFlat(parent, rest, q);
      }
  }

  lemma EmittedIsKept(f: Forest)
    requires WellFormed(f)
    ensures Emitted([], f) == Kept(Flat([], f))
  {
    var fs := Flat([], f);
    forall q | q in fs ensures Survives(fs, q) <==> q in Emitted([], f)
    {
      RootSurvivors(fs, f, q);
    }
    forall q | q in Emitted([], f) ensures q in fs && Emitted([], f)[q] == fs[q] {
      EmittedInFlat([], f, q);
      RootSurvivors(fs, f, q);
    }
  }

  /** Link entries of the walk are exactly the surviving symbolic links. */
  lemma {:induction false} LinkEntries(parent: Path, f: Forest)
    requires NormalPath(parent) && WellFormed(f)
    ensures NoLinkEntry(Walk(parent, f)) <==> !HasLink(Emitted(parent, f))
    decreases f, 1
  {
    match f
    case Nil =>
    case Cons(n, node, rest) =>
      var p := parent + [n];
      LinkEntriesNode(p, node);
      LinkEntries(parent, rest);
      var a, b := WalkNode(p, node), Walk(parent, rest);
      assert NoLinkEntry(a + b) <==> NoLinkEntry(a) && NoLinkEntry(b) by {
        if NoLinkEntry(a + b) {
          NoLinkSplit(a, b);
        }
      }
      var x, y := EmittedNode(p, node), Emitted(parent, rest);
      forall q | q in x ensures q !in y {
        EmittedNodeDomain(p, node, q);
        assert q[|parent|] == q[..|p|][|parent|];
        if q in y {
          EmittedDomain(parent, rest, q);
        }
      }
      HasLinkUnion(x, y);
  }

  lemma HasLinkUnion(x: Fs, y: Fs)
    requires x.Keys !! y.Keys
    ensures HasLink(x + y) <==> HasLink(x) || HasLink(y)
  {
    if HasLink(x) {
      var q :| q in x && x[q].LinkItem?;
      assert (x + y)[q].LinkItem?;
    }
    if HasLink(y) {
      var q :| q in y && y[q].LinkItem?;
      assert (x + y)[q].LinkItem?;
    }
  }

  lemma {:induction false} LinkEntriesNode(p: Path, node: Node)
    requires p != [] && NormalPath(p) && (node.Dir? ==> WellFormed(node.children))
    ensures NoLinkEntry(WalkNode(p, node)) <==> !HasLink(EmittedNode(p, node))
    decreases node, 0
  {
    var own := if Skipped(Join(p)) then [] else [EntryFor(p, node)];
    var inner := if node.Dir? then Walk(p, node.children) else [];
    var below := if node.Dir? then Emitted(p, node.children) else map[];
    forall q | q in below ensures q != p {
      EmittedDomain(p, node.children, q);
    }
    if node.Dir? {
      LinkEntries(p, node.children);
    }
    assert NoLinkEntry(own + inner) <==> NoLinkEntry(own) && NoLinkEntry(inner) by {
      if NoLinkEntry(own + inner) {
        NoLinkSplit(own, inner);
      }
    }
    if own != [] {
      HasLinkUnion(map[p := ItemOf(node)], below);
      OneItem(p, node);
    } else {
      HasLinkUnion(map[p := DirItem], below);
      assert map[p := DirItem] + below == below[p := DirItem];
      assert !HasLink(map[p := DirItem]);
    }
  }

  lemma OneItem(p: Path, node: Node)
    ensures HasLink(map[p := ItemOf(node)]) <==> node.Link?
    ensures NoLinkEntry([EntryFor(p, node)]) <==> !node.Link?
  {
    assert p in map[p := ItemOf(node)];
    assert [EntryFor(p, node)][0].kind.LinkEntry? <==> node.Link?;
  }

  lemma ReplayWhole(tmp: string, rooted: bool, st: Path, ups: nat, f: Forest)
    requires Staging(tmp, rooted, st, ups)
    requires WellFormed(f) && NoLinkEntry(WriteArchive(f))
    ensures Replay(tmp, map[], WriteArchive(f)) == Success(Emitted([], f))
  {
    var empty: Fs := map[];
    assert Passable(empty, []) && Clear(empty, [], f) && NormalPath([]);
    ReplayForest(tmp, rooted, st, ups, empty, [], f);
    ReachedRoot(WriteArchive(f));
    UnionOfEmpty(Emitted([], f), Reached(WriteArchive(f), []));
  }

  lemma ReachedRoot(entries: seq<Entry>)
    ensures Reached(entries, []) == map[]
  {
  }

  lemma UnionOfEmpty(e: Fs, d: Fs)
    requires d == map[]
    ensures map[] + e + d == e
  {
  }

  /** The archive round trip, for every directory tree: the replay of what was written rebuilds
      exactly the surviving paths with their contents, and it is refused if and only if a
      symbolic link survives. */
  lemma ArchiveRoundTrip(tmp: string, rooted: bool, st: Path, ups: nat, f: Forest)
    requires Staging(tmp, rooted, st, ups)
    requires WellFormed(f)
    ensures var fs := Flat([], f);
            var r := Replay(tmp, map[], WriteArchive(f));
            && (r.Success? <==> !HasLink(Kept(fs)))
            && (r.Success? ==> r.value == Kept(fs))
  {
    EmittedIsKept(f);
    LinkEntries([], f);
    if NoLinkEntry(WriteArchive(f)) {
      ReplayWhole(tmp, rooted, st, ups, f);
    } else {
      ReplayStopsAtLink(tmp, map[], WriteArchive(f));
    }
  }

  /** A restored world is backed up and restored again without further loss. */
  lemma KeptIdempotent(fs: Fs)
    ensures Kept(Kept(fs)) == Kept(fs)
  {
    var once := Kept(fs);
    forall p | p in once ensures Survives(once, p) {
      if p == [RCON_ENV] || p == [RCON_YAML] {
        var q :| q in fs && |q| > |p| && q[..|p|] == p;
        assert q[0] == q[..1][0] == p[0];
        assert Survives(fs, q);
        assert q in once;
      }
    }
  }

  // ------------------------------------------------------- a restored world is a world

  /** The tree that a restore leaves behind. */
  function Pruned(f: Forest): Forest {
    match f
    case Nil => Nil
    case Cons(n, node, rest) =>
      if n == "logs" then Cons(n, if node.Dir? then Dir(Nil) else node, Pruned(rest))
      else if (n == RCON_ENV || n == RCON_YAML) && (!node.Dir? || node.children.Nil?) then Pruned(rest)
      else Cons(n, node, Pruned(rest))
  }

  lemma {:induction false} PrunedFlat(f: Forest)
    requires WellFormed(f)
    ensures WellFormed(Pruned(f)) && Names(Pruned(f)) <= Names(f)
    ensures Flat([], Pruned(f)) == Emitted([], f)
  {
    match f
    case Nil =>
    case Cons(n, node, rest) =>
      PrunedFlat(rest);
      assert [] + [n] == [n];
      EmittedNodeAtRoot(n, node);
      PrunedHead(n, node, rest);
  }

  lemma PrunedHead(n: string, node: Node, rest: Forest)
    ensures Flat([], Pruned(Cons(n, node, rest))) == KeptNode(n, node) + Flat([], Pruned(rest))
  {
    assert [] + [n] == [n];
  }

  /** What a backup keeps of a directory tree is again one. */
  lemma KeptIsTree(f: Forest)
    requires WellFormed(f)
    ensures WellFormed(Pruned(f)) && Flat([], Pruned(f)) == Kept(Flat([], f))
  {
    PrunedFlat(f);
    EmittedIsKept(f);
  }

  /** A restored world is backed up and restored a second time without any further loss. */
  lemma SecondRoundTrip(tmp: string, rooted: bool, st: Path, ups: nat, f: Forest)
    requires Staging(tmp, rooted, st, ups) && WellFormed(f) && !HasLink(Kept(Flat([], f)))
    ensures WellFormed(Pruned(f)) && Replay(tmp, map[], WriteArchive(f)) == Success(Flat([], Pruned(f)))
    ensures Replay(tmp, map[], WriteArchive(Pruned(f))) == Success(Flat([], Pruned(f)))
  {
    KeptIsTree(f);
    KeptIdempotent(Flat([], f));
    ArchiveRoundTrip(tmp, rooted, st, ups, f);
    ArchiveRoundTrip(tmp, rooted, st, ups, Pruned(f));
  }

  // --------------------------------------------------------------- two failing worlds

  const LINKED := Cons("x", Link("y"), Nil)

  /** A world of one symbolic link is archived, and its restore is refused. */
  lemma LinkedWorldRefused(tmp: string, rooted: bool, st: Path, ups: nat)
    requires Staging(tmp, rooted, st, ups)
    ensures WellFormed(LINKED) && WriteArchive(LINKED) == [Entry("x", LinkEntry)]
    ensures Replay(tmp, map[], WriteArchive(LINKED)).Failure?
  {
    assert Normal("x");
    var p: Path := ["x"];
    assert [] + ["x"] == p && Join(p) == "x";
    SkippedOnComponents(p);
    NotReserved("x");
    assert WriteArchive(LINKED) == [Entry("x", LinkEntry)];
    assert WriteArchive(LINKED)[0].kind.LinkEntry?;
    ReplayStopsAtLink(tmp, map[], WriteArchive(LINKED));
  }

  lemma NotReserved(c: string)
    requires |c| == 1
    ensures c != RCON_ENV && c != RCON_YAML && c != "logs"
  {
  }

  const CREDENTIAL_DIR := Cons(RCON_ENV, Dir(Cons("x", File([]), Nil)), Nil)

  /** A directory with the name of a credential file keeps its child, and so itself, in the backup. */
  lemma CredentialDirectoryKept(tmp: string, rooted: bool, st: Path, ups: nat)
    requires Staging(tmp, rooted, st, ups)
    ensures WellFormed(CREDENTIAL_DIR)
    ensures Replay(tmp, map[], WriteArchive(CREDENTIAL_DIR))
            == Success(map[[RCON_ENV] := DirItem, [RCON_ENV, "x"] := FileItem([])])
  {
    CredentialNames();
    assert Normal(RCON_ENV) && Normal("x");
    var inner := Cons("x", File([]), Nil);
    assert WellFormed(inner) && WellFormed(CREDENTIAL_DIR);
    KeptIsTree(CREDENTIAL_DIR);
    NotLogs();
    assert Pruned(CREDENTIAL_DIR) == CREDENTIAL_DIR;
    CredentialFlat();
    var fs := Flat([], CREDENTIAL_DIR);
    assert !HasLink(Kept(fs));
    ArchiveRoundTrip(tmp, rooted, st, ups, CREDENTIAL_DIR);
  }

  lemma NotLogs()
    ensures RCON_ENV != "logs"
  {
    assert RCON_ENV[0] == '.';
  }

  lemma CredentialFlat()
    ensures Flat([], CREDENTIAL_DIR) == map[[RCON_ENV] := DirItem, [RCON_ENV, "x"] := FileItem([])]
  {
    var p: Path := [RCON_ENV];
    assert [] + [RCON_ENV] == p && p + ["x"] == [RCON_ENV, "x"];
    assert Flat(p, Cons("x", File([]), Nil)) == map[[RCON_ENV, "x"] := FileItem([])];
  }

  lemma FileAlone(n: string, data: seq<byte>)
    ensures WriteArchive(Cons(n, File(data), Nil)) == if Skipped(n) then [] else [Entry(n, FileEntry(data))]
  {
    assert [] + [n] == [n] && Join([n]) == n;
    assert Walk([], Cons(n, File(data), Nil)) == WalkNode([n], File(data)) + [];
    assert WalkNode([n], File(data)) == (if Skipped(n) then [] else [EntryFor([n], File(data))]) + [];
  }

  lemma FileBelow(d: string, n: string, data: seq<byte>)
    ensures WriteArchive(Cons(d, Dir(Cons(n, File(data), Nil)), Nil)) ==
            (if Skipped(d) then [] else [Entry(d, DirEntry)]) +
            (if Skipped(d + "/" + n) then [] else [Entry(d + "/" + n, FileEntry(data))])
  {
    assert [] + [d] == [d] && Join([d]) == d;
    assert [d] + [n] == [d, n] && [d, n][1..] == [n] && Join([n]) == n;
    assert Join([d, n]) == d + "/" + n;
    assert Walk([], Nil) == [] && Walk([d], Nil) == [];
    assert Walk([d], Cons(n, File(data), Nil)) == WalkNode([d, n], File(data)) + [];
    assert WalkNode([d], Dir(Cons(n, File(data), Nil)))
           == (if Skipped(d) then [] else [EntryFor([d], Dir(Cons(n, File(data), Nil)))])
              + WalkNode([d, n], File(data));
  }

  /** What the walk leaves out, by its actual names: the two credential files at the root and whatever
      lies below logs; the directory itself and every other name is written. */
  lemma LeftOutByName(data: seq<byte>)
    ensures WriteArchive(Cons(".rcon-cli.env", File(data), Nil)) == []
    ensures WriteArchive(Cons(".rcon-cli.yaml", File(data), Nil)) == []
    ensures WriteArchive(Cons("logs", Dir(Cons("a", File(data), Nil)), Nil)) == [Entry("logs", DirEntry)]
    ensures WriteArchive(Cons("log", Dir(Cons("a", File(data), Nil)), Nil))
            == [Entry("log", DirEntry), Entry("log/a", FileEntry(data))]
    ensures WriteArchive(Cons("a", Dir(Cons(".rcon-cli.env", File(data), Nil)), Nil))
            == [Entry("a", DirEntry), Entry("a/.rcon-cli.env", FileEntry(data))]
  {
    FileAlone(".rcon-cli.env", data);
    FileAlone(".rcon-cli.yaml", data);
    FileBelow("logs", "a", data);
    FileBelow("log", "a", data);
    FileBelow("a", ".rcon-cli.env", data);
    assert "logs" + "/" + "a" == "logs/a" && HasPrefix("logs/a", "logs/");
    assert "log" + "/" + "a" == "log/a" && "a" + "/" + ".rcon-cli.env" == "a/.rcon-cli.env";
    assert "logs"[0] == 'l' && "log"[0] == 'l' && "a"[0] == 'a';
    assert !Skipped("log/a") by {
      assert "log/a"[3] == '/' && "logs/"[3] == 's' && "log/a"[0] == 'l';
    }
    assert !Skipped("a/.rcon-cli.env") by {
      assert "a/.rcon-cli.env"[0] == 'a' && "logs/"[0] == 'l' && RCON_ENV[0] == '.' && RCON_YAML[0] == '.';
    }
  }

  // ------------------------------------------------------------ any archive at all

  /** Whatever lies below another path lies below a directory. */
  ghost predicate Rooted(fs: Fs) {
    forall p :: p in fs && |p| >= 2 ==> p[..|p| - 1] in fs && fs[p[..|p| - 1]].DirItem?
  }

  lemma {:induction false} MkdirKeeps(fs: Fs, p: Path)
    requires Rooted(fs) && MkdirAll(fs, p).Success?
    ensures var g := MkdirAll(fs, p).value;
            && Rooted(g) && (p != [] ==> p in g && g[p].DirItem?)
            && (forall q :: q in fs ==> q in g && g[q] == fs[q])
            && (forall q :: q in g && q !in fs ==> g[q].DirItem?)
    decreases |p|
  {
    if p == [] {
    } else {
      MkdirKeeps(fs, p[..|p| - 1]);
      var g := MkdirAll(fs, p[..|p| - 1]).value;
      if p !in g && |p| >= 2 {
        assert p[..|p| - 1] in g;
      }
    }
  }

  lemma WriteKeeps(fs: Fs, p: Path, data: seq<byte>)
    requires p != [] && Rooted(fs) && WriteFile(fs, p, data).Success?
    ensures var g := WriteFile(fs, p, data).value;
            && Rooted(g) && p in g && g[p] == FileItem(data)
            && (forall q :: q in fs && fs[q].DirItem? ==> q in g && g[q].DirItem?)
            && (forall q :: q in fs && q != p ==> q in g && g[q] == fs[q])
  {
    MkdirKeeps(fs, p[..|p| - 1]);
  }

  lemma ExtractKeeps(tmp: string, fs: Fs, e: Entry)
    requires Rooted(fs) && Extract(tmp, fs, e).Success?
    ensures var g := Extract(tmp, fs, e).value;
            && Rooted(g) && (e.kind.FileEntry? || e.kind.DirEntry?)
            && (forall q :: q in fs && fs[q].DirItem? ==> q in g && g[q].DirItem?)
            && (forall q :: q in fs ==> q in g)
  {
    var p := Components(Target(tmp, e.name).value[|tmp| + 1..]);
    if e.kind.DirEntry? {
      MkdirKeeps(fs, p);
    } else if e.kind.FileEntry? {
      WriteKeeps(fs, p, e.kind.data);
    }
  }

  /** Whatever an archive holds, also one that no backup wrote: a replay that succeeds has seen only files
      and directories, leaves a tree in which everything lies below directories, and has removed
      nothing and turned no directory into a file. */
  lemma {:induction false} AnyReplay(tmp: string, fs: Fs, entries: seq<Entry>)
    requires Rooted(fs) && Replay(tmp, fs, entries).Success?
    ensures var g := Replay(tmp, fs, entries).value;
            && Rooted(g) && (forall e :: e in entries ==> e.kind.FileEntry? || e.kind.DirEntry?)
            && (forall q :: q in fs ==> q in g && (fs[q].DirItem? ==> g[q].DirItem?))
    decreases |entries|
  {
    if entries == [] {
    } else {
      ExtractKeeps(tmp, fs, entries[0]);
      AnyReplay(tmp, Extract(tmp, fs, entries[0]).value, entries[1..]);
    }
  }

  /** An entry with an acceptable name that is no file or directory is refused for what it is. */
  lemma RefusedKinds(tmp: string, fs: Fs, name: string)
    requires Target(tmp, name).Success?
    ensures Extract(tmp, fs, Entry(name, LinkEntry)) == Failure(SymlinkRefused)
    ensures Extract(tmp, fs, Entry(name, OtherEntry)) == Failure(Unsupported)
  {
  }
}
