/** Slash-separated path strings and the lexical cleaning that the restorer relies on. */
module Paths {
  import opened Strings

  /** A path as a list of components. */
  type Path = seq<string>

  function Components(s: string): (r: seq<string>)
    ensures |r| >= 1
  {
    Strings.Split('/', s)
  }

  function Join(p: Path): string {
    if p == [] then ""
    else if |p| == 1 then p[0]
    else p[0] + "/" + Join(p[1..])
  }

  predicate NoSlash(s: string) {
    '/' !in s
  }

  /** A component that names a file: what a directory listing can return. */
  predicate Normal(c: string) {
    c != "" && c != "." && c != ".." && NoSlash(c)
  }

  predicate NormalPath(p: Path) {
    forall i :: 0 <= i < |p| ==> Normal(p[i])
  }

  lemma SplitNoSlash(s: string)
    requires NoSlash(s)
    ensures Components(s) == [s]
  {
    SplitPlain('/', s);
  }

  /** Splitting distributes over an explicit slash. */
  lemma SplitSlash(a: string, b: string)
    ensures Components(a + "/" + b) == Components(a) + Components(b)
  {
    SplitAppend('/', a, b);
    assert "/" == ['/'];
  }

  lemma {:induction false} SplitJoin(p: Path)
    requires p != []
    requires forall i :: 0 <= i < |p| ==> NoSlash(p[i])
    ensures Components(Join(p)) == p
  {
    SplitNoSlash(p[0]);
    if |p| == 1 {
    } else {
      SplitJoin(p[1..]);
      SplitSlash(p[0], Join(p[1..]));
      assert p == [p[0]] + p[1..];
    }
  }

  lemma {:induction false} JoinAppend(p: Path, q: Path)
    requires p != [] && q != []
    ensures Join(p + q) == Join(p) + "/" + Join(q)
  {
    if |p| == 1 {
      assert (p + q)[1..] == q;
    } else {
      JoinAppend(p[1..], q);
      assert (p + q)[1..] == p[1..] + q;
    }
  }

  lemma JoinInjective(p: Path, q: Path)
    requires p != [] && q != []
    requires forall i :: 0 <= i < |p| ==> NoSlash(p[i])
    requires forall i :: 0 <= i < |q| ==> NoSlash(q[i])
    ensures Join(p) == Join(q) <==> p == q
  {
    SplitJoin(p);
    SplitJoin(q);
  }

  /** Lexical resolution of the components of a path: drop empty and "." components,
      let ".." cancel the component before it, keep it where nothing can be cancelled. */
  function Resolve(rooted: bool, stack: Path, comps: seq<string>): Path
    decreases |comps|
  {
    if comps == [] then stack
    else
      var c, rest := comps[0], comps[1..];
      if c == "" || c == "." then Resolve(rooted, stack, rest)
      else if c == ".." then
        if stack != [] && stack[|stack| - 1] != ".." then Resolve(rooted, stack[..|stack| - 1], rest)
        else if rooted then Resolve(rooted, stack, rest)
        else Resolve(rooted, stack + [c], rest)
      else Resolve(rooted, stack + [c], rest)
  }

  predicate IsAbs(s: string) {
    HasPrefix(s, "/")
  }

  function Clean(s: string): string {
    if s == "" then "."
    else
      var out := (if IsAbs(s) then "/" else "") + Join(Resolve(IsAbs(s), [], Components(s)));
      if out == "" then "." else out
  }

  lemma CleanIs(s: string, rooted: bool, p: Path)
    requires s != "" && IsAbs(s) == rooted && Resolve(rooted, [], Components(s)) == p && Join(p) != ""
    ensures Clean(s) == (if rooted then "/" else "") + Join(p)
  {
  }

  function JoinTwo(base: string, name: string): string {
    Clean(base + "/" + name)
  }

  /** Number of leading ".." components followed only by file names. */
  ghost predicate Stacked(st: Path, ups: nat) {
    && ups <= |st|
    && (forall i :: 0 <= i < ups ==> st[i] == "..")
    && (forall i :: ups <= i < |st| ==> Normal(st[i]))
  }

  lemma SplitHasNoSlash(s: string)
    ensures forall i :: 0 <= i < |Components(s)| ==> NoSlash(Components(s)[i])
  {
    SplitHasNoSep('/', s);
  }

  lemma {:induction false} ResolveStacked(rooted: bool, stack: Path, comps: seq<string>, ups: nat) returns (ups': nat)
    requires Stacked(stack, ups) && (rooted ==> ups == 0)
    requires forall i :: 0 <= i < |comps| ==> NoSlash(comps[i])
    ensures Stacked(Resolve(rooted, stack, comps), ups') && (rooted ==> ups' == 0)
    decreases |comps|
  {
    if comps == [] {
      return ups;
    }
    var c, rest := comps[0], comps[1..];
    if c == "" || c == "." {
      ups' := ResolveStacked(rooted, stack, rest, ups);
    } else if c == ".." {
      if stack != [] && stack[|stack| - 1] != ".." {
        ups' := ResolveStacked(rooted, stack[..|stack| - 1], rest, ups);
      } else if rooted {
        ups' := ResolveStacked(rooted, stack, rest, ups);
      } else {
        assert stack != [] ==> ups == |stack|;
        ups' := ResolveStacked(rooted, stack + [c], rest, |stack| + 1);
      }
    } else {
      ups' := ResolveStacked(rooted, stack + [c], rest, ups);
    }
  }

  /** File names pass through resolution untouched. */
  lemma {:induction false} ResolveNormal(rooted: bool, stack: Path, p: Path, rest: seq<string>)
    requires NormalPath(p)
    ensures Resolve(rooted, stack, p + rest) == Resolve(rooted, stack + p, rest)
    decreases |p|
  {
    if p == [] {
      assert p + rest == rest && stack + p == stack;
    } else {
      assert (p + rest)[1..] == p[1..] + rest;
      ResolveNormal(rooted, stack + [p[0]], p[1..], rest);
      assert stack + [p[0]] + p[1..] == stack + p;
    }
  }

  lemma CleanNormal(p: Path)
    requires p != [] && NormalPath(p)
    ensures Clean(Join(p)) == Join(p) != "" && !IsAbs(Join(p))
  {
    SplitJoin(p);
    ResolveNormal(false, [], p, []);
    assert p + [] == p && [] + p == p;
    JoinNotAbs(p);
  }

  lemma JoinNotAbs(p: Path)
    requires p != [] && NormalPath(p)
    ensures Join(p) != "" && !IsAbs(Join(p))
  {
    if |p| > 1 {
      assert Join(p) == p[0] + "/" + Join(p[1..]);
    }
    assert Join(p)[0] == p[0][0];
  }
}
