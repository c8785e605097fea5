/** The world archive: a preorder walk of a directory turned into entries, and the
    replay of entries into an empty staging directory (internal/store/store.go). */
module Archive {
  import opened Wrappers
  import opened Paths
  import opened Strings

  /** A directory tree as the walk meets it. */
  datatype Node = File(data: seq<byte>) | Link(target: string) | Dir(children: Forest)

  /** The listing of one directory. */
  datatype Forest = Nil | Cons(name: string, node: Node, rest: Forest)

  /** What a path holds on disk; directories are items of their own. */
  datatype Item = DirItem | FileItem(data: seq<byte>) | LinkItem(target: string)

  /** The content of a directory, keyed by path relative to it. */
  type Fs = map<Path, Item>

  datatype EntryKind = DirEntry | FileEntry(data: seq<byte>) | LinkEntry | OtherEntry

  datatype Entry = Entry(name: string, kind: EntryKind)

  datatype RestoreError = UnsafePath | EscapedPath | SymlinkRefused | Unsupported | NotADirectory | IsADirectory

  function Names(f: Forest): set<string> {
    match f
    case Nil => {}
    case Cons(n, _, rest) => {n} + Names(rest)
  }

  /** What a real directory tree satisfies: legal, distinct names in every directory. */
  predicate WellFormed(f: Forest) {
    match f
    case Nil => true
    case Cons(n, node, rest) =>
      Normal(n) && n !in Names(rest) && WellFormed(rest) && (node.Dir? ==> WellFormed(node.children))
  }

  function ItemOf(node: Node): Item {
    match node
    case File(data) => FileItem(data)
    case Link(target) => LinkItem(target)
    case Dir(_) => DirItem
  }

  /** The directory content that a tree stands for. */
  function Flat(parent: Path, f: Forest): Fs
    decreases f
  {
    match f
    case Nil => map[]
    case Cons(n, node, rest) => FlatNode(parent + [n], node) + Flat(parent, rest)
  }

  function FlatNode(p: Path, node: Node): Fs
    decreases node
  {
    map[p := ItemOf(node)] + (if node.Dir? then Flat(p, node.children) else map[])
  }

  // ------------------------------------------------------------------ writing

  const RCON_ENV := ".rcon-cli.env"
  const RCON_YAML := ".rcon-cli.yaml"

  /** The test of the walk callback on the slash-separated relative name. */
  predicate Skipped(rel: string) {
    rel == RCON_ENV || rel == RCON_YAML || HasPrefix(rel, "logs/")
  }

  function EntryFor(p: Path, node: Node): Entry {
    Entry(Join(p), match node
                   case File(data) => FileEntry(data)
                   case Link(_) => LinkEntry
                   case Dir(_) => DirEntry)
  }

  /** The entries written for the children of `parent`. A skipped name writes no entry of its
      own, but the walk still descends into it when it is a directory. */
  function Walk(parent: Path, f: Forest): seq<Entry>
    decreases f
  {
    match f
    case Nil => []
    case Cons(n, node, rest) => WalkNode(parent + [n], node) + Walk(parent, rest)
  }

  function WalkNode(p: Path, node: Node): seq<Entry>
    decreases node
  {
    (if Skipped(Join(p)) then [] else [EntryFor(p, node)]) +
    (if node.Dir? then Walk(p, node.children) else [])
  }

  function WriteArchive(f: Forest): seq<Entry> {
    Walk([], f)
  }

  // ---------------------------------------------------------------- restoring

  /** Where an entry goes inside the staging directory, or the refusal. */
  function Target(tmp: string, name: string): Result<string, RestoreError> {
    var clean := Clean(name);
    if clean == "." || IsAbs(clean) || HasPrefix(clean, "../") then Failure(UnsafePath)
    else
      var target := JoinTwo(tmp, clean);
      if HasPrefix(target, tmp + "/") then Success(target) else Failure(EscapedPath)
  }

  function MkdirAll(fs: Fs, p: Path): Result<Fs, RestoreError>
    decreases |p|
  {
    if p == [] then Success(fs)
    else
      match MkdirAll(fs, p[..|p| - 1])
      case Failure(e) => Failure(e)
      case Success(g) =>
        if p !in g then Success(g[p := DirItem])
        else if g[p].DirItem? then Success(g)
        else Failure(NotADirectory)
  }

  function WriteFile(fs: Fs, p: Path, data: seq<byte>): Result<Fs, RestoreError>
    requires p != []
  {
    match MkdirAll(fs, p[..|p| - 1])
    case Failure(e) => Failure(e)
    case Success(g) =>
      if p in g && g[p].DirItem? then Failure(IsADirectory) else Success(g[p := FileItem(data)])
  }

  function Extract(tmp: string, fs: Fs, e: Entry): Result<Fs, RestoreError> {
    match Target(tmp, e.name)
    case Failure(err) => Failure(err)
    case Success(target) =>
      var p := Components(target[|tmp| + 1..]);
      match e.kind
      case DirEntry => MkdirAll(fs, p)
      case FileEntry(data) => WriteFile(fs, p, data)
      case LinkEntry => Failure(SymlinkRefused)
      case OtherEntry => Failure(Unsupported)
  }

  function Replay(tmp: string, fs: Fs, entries: seq<Entry>): Result<Fs, RestoreError>
    decreases |entries|
  {
    if entries == [] then Success(fs)
    else
      match Extract(tmp, fs, entries[0])
      case Failure(e) => Failure(e)
      case Success(g) => Replay(tmp, g, entries[1..])
  }

  /** The extraction loop of Restore, which stops at the first refused entry. */
  method ExtractAll(tmp: string, entries: seq<Entry>) returns (r: Result<Fs, RestoreError>)
    ensures r == Replay(tmp, map[], entries)
  {
    var staged: Fs := map[];
    var i := 0;
    while i < |entries|
      invariant 0 <= i <= |entries|
      invariant Replay(tmp, staged, entries[i..]) == Replay(tmp, map[], entries)
    {
      var step := Extract(tmp, staged, entries[i]);
      assert entries[i..][0] == entries[i] && entries[i..][1..] == entries[i + 1..];
      if step.Failure? {
        return Failure(step.error);
      }
      staged := step.value;
      i := i + 1;
    }
    r := Success(staged);
  }

  // ------------------------------------------------- what survives a round trip

  /** Paths that a backup keeps: nothing below logs/, and neither RCON credential file. A
      directory of that name is rebuilt as the parent of whatever it contains. */
  ghost predicate Survives(fs: Fs, p: Path) {
    if |p| >= 2 && p[0] == "logs" then false
    else if p == [RCON_ENV] || p == [RCON_YAML] then p in fs && fs[p].DirItem? && HasChild(fs, p)
    else true
  }

  ghost predicate HasChild(fs: Fs, p: Path) {
    exists q :: q in fs && |q| > |p| && q[..|p|] == p
  }

  ghost function Kept(fs: Fs): Fs {
    map p | p in fs && Survives(fs, p) :: fs[p]
  }

  ghost predicate HasLink(fs: Fs) {
    exists p :: p in fs && fs[p].LinkItem?
  }

  // ------------------------------------------------------- path checks on restore

  /** What MkdirTemp returns next to the destination: a clean path whose last component names
      the staging directory. */
  ghost predicate Staging(tmp: string, rooted: bool, st: Path, ups: nat) {
    && Stacked(st, ups) && ups < |st| && (rooted ==> ups == 0)
    && tmp == (if rooted then "/" else "") + Join(st)
  }

  lemma {:induction false} ResolveStackedSelf(rooted: bool, st: Path, ups: nat, k: nat)
    requires Stacked(st, ups) && (rooted ==> ups == 0) && k <= |st|
    ensures Resolve(rooted, st[..k], st[k..]) == st
    decreases |st| - k
  {
    if k < |st| {
      ResolveStackedSelf(rooted, st, ups, k + 1);
      assert st[..k] + [st[k]] == st[..k + 1];
      assert st[k..][1..] == st[k + 1..];
    } else {
      assert st[..k] == st && st[k..] == [];
    }
  }

  lemma {:induction false} ResolveAppend(rooted: bool, stack: Path, a: seq<string>, b: seq<string>)
    ensures Resolve(rooted, stack, a + b) == Resolve(rooted, Resolve(rooted, stack, a), b)
    decreases |a|
  {
    if a == [] {
      assert a + b == b;
    } else {
      assert (a + b)[1..] == a[1..] + b && (a + b)[0] == a[0];
      var c := a[0];
      if c == "" || c == "." {
        ResolveAppend(rooted, stack, a[1..], b);
      } else if c == ".." && stack != [] && stack[|stack| - 1] != ".." {
        ResolveAppend(rooted, stack[..|stack| - 1], a[1..], b);
      } else if c == ".." && rooted {
        ResolveAppend(rooted, stack, a[1..], b);
      } else {
        ResolveAppend(rooted, stack + [c], a[1..], b);
      }
    }
  }

  /** Components of a staging path followed by more path resolve on top of the staging stack. */
  lemma StagedComponents(tmp: string, rooted: bool, st: Path, ups: nat, name: string)
    requires Staging(tmp, rooted, st, ups)
    ensures IsAbs(tmp + "/" + name) == rooted
    ensures Resolve(rooted, [], Components(tmp + "/" + name)) == Resolve(rooted, st, Components(name))
  {
    SplitSlash(tmp, name);
    SplitJoin(st);
    ResolveStackedSelf(rooted, st, ups, 0);
    assert st[..0] == [] && st[0..] == st;
    if rooted {
      assert tmp == "" + "/" + Join(st);
      SplitSlash("", Join(st));
      assert Components(tmp) == [""] + st;
      ResolveAppend(rooted, [], [""], st);
      assert Resolve(rooted, [], [""]) == [];
      assert Resolve(rooted, [], Components(tmp)) == st;
    } else {
      assert tmp == Join(st);
      assert st[0] != "" && st[0][0] != '/';
      if |st| > 1 {
        assert Join(st) == st[0] + "/" + Join(st[1..]);
      }
      assert Join(st)[0] == st[0][0];
    }
    ResolveAppend(rooted, [], Components(tmp), Components(name));
  }

  lemma JoinLonger(st: Path, p: Path)
    requires st != [] && p != []
    ensures |Join(st + p)| > |Join(st)|
  {
    JoinAppend(st, p);
  }

  lemma JoinPlain(r: Path)
    requires r != [] && NormalPath(r)
    ensures Join(r) != "." && Join(r) != "" && !IsAbs(Join(r)) && !HasPrefix(Join(r), "../")
  {
    SplitJoin(r);
    JoinNotAbs(r);
    SplitNoSlash(".");
    if HasPrefix(Join(r), "../") {
      ClimbingSplit(Join(r));
    }
  }

  lemma ClimbingSplit(s: string)
    requires HasPrefix(s, "../")
    ensures Components(s)[0] == ".."
  {
    assert s == ".." + "/" + s[3..];
    SplitSlash("..", s[3..]);
    SplitNoSlash("..");
  }

  lemma JoinTwoNormal(tmp: string, rooted: bool, st: Path, ups: nat, r: Path)
    requires Staging(tmp, rooted, st, ups)
    requires r != [] && NormalPath(r)
    ensures JoinTwo(tmp, Join(r)) == tmp + "/" + Join(r)
  {
    var s := tmp + "/" + Join(r);
    StagedComponents(tmp, rooted, st, ups, Join(r));
    SplitJoin(r);
    ResolveNormal(rooted, st, r, []);
    assert r + [] == r;
    JoinAppend(st, r);
    CleanIs(s, rooted, st + r);
    AppendSlash(if rooted then "/" else "", Join(st), Join(r));
  }

  lemma AppendSlash(root: string, a: string, b: string)
    ensures root + (a + "/" + b) == (root + a) + "/" + b
  {
  }

  /** A path whose components are file names lands at that path below the staging directory. */
  lemma TargetOfNormal(tmp: string, rooted: bool, st: Path, ups: nat, name: string, r: Path)
    requires Staging(tmp, rooted, st, ups)
    requires name != "" && !IsAbs(name)
    requires r == Resolve(false, [], Components(name)) && r != [] && NormalPath(r)
    ensures Target(tmp, name) == Success(tmp + "/" + Join(r))
  {
    SplitJoin(r);
    JoinPlain(r);
    assert Clean(name) == Join(r);
    JoinTwoNormal(tmp, rooted, st, ups, r);
    assert (tmp + "/" + Join(r))[..|tmp| + 1] == tmp + "/";
  }

  /** A path that climbs out is refused by one of the two checks. */
  lemma TargetOfClimbing(tmp: string, rooted: bool, st: Path, ups: nat, name: string, r: Path, u: nat)
    requires Staging(tmp, rooted, st, ups)
    requires name != "" && !IsAbs(name)
    requires r == Resolve(false, [], Components(name)) && Stacked(r, u) && u > 0
    ensures Target(tmp, name).Failure?
  {
    if |r| > 1 {
      ClimbsFar(name, r);
    } else {
      assert r == [".."];
      CleanIs(name, false, r);
      assert Join(r) == ".." && Clean(name) == "..";
      StaysShort(tmp, rooted, st, ups);
    }
  }

  lemma ClimbsFar(name: string, r: Path)
    requires name != "" && !IsAbs(name) && r == Resolve(false, [], Components(name)) && |r| > 1 && r[0] == ".."
    ensures HasPrefix(Clean(name), "../")
  {
    assert Join(r) == ".." + "/" + Join(r[1..]);
    CleanIs(name, false, r);
    assert Join(r)[..3] == "../";
  }

  /** Joining ".." to the staging directory gives something too short to lie below it. */
  lemma StaysShort(tmp: string, rooted: bool, st: Path, ups: nat)
    requires Staging(tmp, rooted, st, ups)
    ensures |JoinTwo(tmp, "..")| <= |tmp|
  {
    StagedComponents(tmp, rooted, st, ups, "..");
    SplitNoSlash("..");
    var up := st[..|st| - 1];
    assert Resolve(rooted, st, [".."]) == Resolve(rooted, up, []) == up;
    assert st == up + [st[|st| - 1]];
    if up != [] {
      JoinLonger(up, [st[|st| - 1]]);
    }
  }

  /** The path checks of Restore, exactly: an entry is accepted if and only if its name is
      relative and its components resolve to at least one file name and no "..", and then it
      is placed at those components below the staging directory. */
  lemma AcceptedIffInside(tmp: string, rooted: bool, st: Path, ups: nat, name: string)
    requires Staging(tmp, rooted, st, ups)
    ensures var r := Resolve(IsAbs(name), [], Components(name));
            var inside := !IsAbs(name) && r != [] && NormalPath(r);
            && (Target(tmp, name).Success? <==> inside)
            && (inside ==> Target(tmp, name) == Success(tmp + "/" + Join(r)))
            && (inside ==> Components(Target(tmp, name).value[|tmp| + 1..]) == r)
  {
    var r := Resolve(IsAbs(name), [], Components(name));
    SplitHasNoSlash(name);
    var u := ResolveStacked(IsAbs(name), [], Components(name), 0);
    if name == "" || (!IsAbs(name) && r == []) {
      assert Clean(name) == ".";
    } else if IsAbs(name) {
      assert IsAbs(Clean(name));
    } else if u == 0 {
      TargetOfNormal(tmp, rooted, st, ups, name, r);
      SplitJoin(r);
      assert (tmp + "/" + Join(r))[|tmp| + 1..] == Join(r);
    } else {
      TargetOfClimbing(tmp, rooted, st, ups, name, r, u);
      assert !Normal(r[0]);
    }
  }

  /** Every name the walk writes is left alone by the cleaning, accepted, and placed at its own
      path. */
  lemma WrittenNameAccepted(tmp: string, rooted: bool, st: Path, ups: nat, p: Path)
    requires Staging(tmp, rooted, st, ups)
    requires p != [] && NormalPath(p)
    ensures Clean(Join(p)) == Join(p)
    ensures Target(tmp, Join(p)) == Success(tmp + "/" + Join(p))
    ensures Components(Target(tmp, Join(p)).value[|tmp| + 1..]) == p
  {
    CleanNormal(p);
    SplitJoin(p);
    ResolveNormal(false, [], p, []);
    assert p + [] == p && [] + p == p;
    TargetOfNormal(tmp, rooted, st, ups, Join(p), p);
    assert (tmp + "/" + Join(p))[|tmp| + 1..] == Join(p);
  }
}
