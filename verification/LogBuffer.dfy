/** The dashboard's log: recent lines in memory, and the same lines in one live and one rotated
    file that a restarted process reads back (internal/webui/logbuffer.go). Characters stand
    for bytes. */
module LogBuffer {
  import opened Strings
  import opened Wrappers

  /** A line that fills the scanner's one-mebibyte buffer cannot be read back. */
  const SCAN_LIMIT: nat := 1_048_576

  // -------------------------------------------------------------------- lines

  /** The pieces between newlines; at least one. */
  function Pieces(s: string): (parts: seq<string>)
    ensures |parts| >= 1
  {
    Split('\n', s)
  }

  function TrimNewline(s: string): string {
    if s != "" && s[|s| - 1] == '\n' then s[..|s| - 1] else s
  }

  function NonBlank(ls: seq<string>): seq<string> {
    if ls == [] then []
    else if ls[0] == "" then NonBlank(ls[1..])
    else [ls[0]] + NonBlank(ls[1..])
  }

  /** The lines that a write adds in memory. */
  function Written(p: string): seq<string> {
    NonBlank(Pieces(TrimNewline(p)))
  }

  function DropReturn(l: string): string {
    if l != "" && l[|l| - 1] == '\r' then l[..|l| - 1] else l
  }

  function DropReturns(ls: seq<string>): (r: seq<string>)
    ensures |r| == |ls| && forall i :: 0 <= i < |ls| ==> r[i] == DropReturn(ls[i])
  {
    seq(|ls|, i requires 0 <= i < |ls| => DropReturn(ls[i]))
  }

  /** The pieces that the line scanner finds: the last one counts only when it is not empty. */
  function Raw(s: string): seq<string> {
    var parts := Pieces(s);
    if parts[|parts| - 1] == "" then parts[..|parts| - 1] else parts
  }

  /** The lines that loading a file adds in memory. */
  function Scanned(s: string): seq<string> {
    DropReturns(Raw(s))
  }

  predicate Scannable(s: string) {
    forall l :: l in Pieces(s) ==> |l| < SCAN_LIMIT
  }

  function Last<T>(n: nat, s: seq<T>): seq<T> {
    if |s| <= n then s else s[|s| - n..]
  }

  lemma LastLast<T>(n: nat, s: seq<T>, t: seq<T>)
    ensures Last(n, Last(n, s) + t) == Last(n, s + t)
  {
  }

  // --------------------------------------------------- one piece at a time

  predicate OneLine(l: string) {
    forall i :: 0 <= i < |l| ==> l[i] != '\n'
  }

  lemma SplitFirst(l: string, rest: string)
    requires OneLine(l)
    ensures Pieces(l + "\n" + rest) == [l] + Pieces(rest)
  {
    SplitAppend('\n', l, rest);
    SplitPlain('\n', l);
    assert "\n" == ['\n'];
  }

  lemma RawFirst(l: string, rest: string)
    requires OneLine(l)
    ensures Raw(l + "\n" + rest) == [l] + Raw(rest)
    ensures Scannable(l + "\n" + rest) <==> |l| < SCAN_LIMIT && Scannable(rest)
  {
    SplitFirst(l, rest);
    var all, parts := Pieces(l + "\n" + rest), Pieces(rest);
    assert all[|all| - 1] == parts[|parts| - 1];
    assert all[..|all| - 1] == [l] + parts[..|parts| - 1];
    assert all[0] == l;
    assert forall x :: x in all <==> x == l || x in parts;
  }

  lemma ScannedFirst(l: string, rest: string)
    requires OneLine(l)
    ensures Scanned(l + "\n" + rest) == [DropReturn(l)] + Scanned(rest)
  {
    RawFirst(l, rest);
    DropReturnsFirst(l, Raw(rest));
  }

  lemma DropReturnsFirst(l: string, ls: seq<string>)
    ensures DropReturns([l] + ls) == [DropReturn(l)] + DropReturns(ls)
  {
  }

  method FindNewline(s: string) returns (i: nat)
    ensures i <= |s| && OneLine(s[..i])
    ensures i < |s| ==> s[i] == '\n'
  {
    i := 0;
    while i < |s| && s[i] != '\n'
      invariant i <= |s|
      invariant OneLine(s[..i])
    {
      i := i + 1;
    }
  }

  /** Every text is its first line, alone or followed by a newline and the rest. */
  lemma Peel(s: string, i: nat)
    requires i < |s| && s[i] == '\n'
    ensures s == s[..i] + "\n" + s[i + 1..]
  {
  }

  function Tail(s: string, i: nat): string {
    if i < |s| then s[i + 1..] else ""
  }

  /** One step of the line scanner. */
  lemma ScanStep(s: string, i: nat)
    requires s != "" && i <= |s| && OneLine(s[..i]) && (i < |s| ==> s[i] == '\n')
    ensures Scanned(s) == [DropReturn(s[..i])] + Scanned(Tail(s, i))
    ensures Scannable(s) <==> |s[..i]| < SCAN_LIMIT && Scannable(Tail(s, i))
  {
    if i < |s| {
      Peel(s, i);
      RawFirst(s[..i], s[i + 1..]);
      ScannedFirst(s[..i], s[i + 1..]);
    } else {
      assert s[..i] == s;
      SplitPlain('\n', s);
      EmptyScan();
    }
  }

  lemma EmptyScan()
    ensures Scanned("") == [] && Scannable("")
  {
  }

  /** The scanner has read `seen` of a text and has `rest` before it. */
  ghost predicate Progress(text: string, seen: seq<string>, rest: string) {
    && seen + Scanned(rest) == Scanned(text)
    && (Scannable(rest) <==> Scannable(text))
  }

  lemma ScanStart(n: nat, before: seq<string>, text: string)
    requires |before| <= n
    ensures Progress(text, [], text) && before == Last(n, before + [])
  {
    assert before + [] == before;
  }

  lemma ScanAdvance(text: string, seen: seq<string>, rest: string, i: nat)
    requires Progress(text, seen, rest)
    requires rest != "" && i <= |rest| && OneLine(rest[..i]) && (i < |rest| ==> rest[i] == '\n')
    ensures i >= SCAN_LIMIT ==> !Scannable(text)
    ensures i < SCAN_LIMIT ==> Progress(text, seen + [DropReturn(rest[..i])], Tail(rest, i))
  {
    ScanStep(rest, i);
    var line, tail := DropReturn(rest[..i]), Scanned(Tail(rest, i));
    assert (seen + [line]) + tail == seen + ([line] + tail);
  }

  lemma ScanEnd(text: string, seen: seq<string>)
    requires Progress(text, seen, "")
    ensures seen == Scanned(text) && Scannable(text)
  {
    EmptyScan();
    assert seen + [] == seen;
  }

  /** Adding one line to a bounded list. */
  lemma LastStep<T>(n: nat, old_: seq<T>, seen: seq<T>, x: T)
    ensures Last(n, Last(n, old_ + seen) + [x]) == Last(n, old_ + (seen + [x]))
  {
    LastLast(n, old_ + seen, [x]);
    assert (old_ + seen) + [x] == old_ + (seen + [x]);
  }

  // ---------------------------------------------------------------- the object

  class Files {
    var live: Option<string>
    var rotated: Option<string>

    constructor ()
      ensures live == None && rotated == None
    {
      live, rotated := None, None;
    }
  }

  datatype Limits = Limits(maxEntries: nat, maxBytes: nat)

  /** What the buffer holds in memory and on disk. */
  datatype Log = Log(entries: seq<string>, live: string, rotated: Option<string>)

  const EMPTY_LOG := Log([], "", None)

  /** A write of `asked` bytes of which `p` reached the file. */
  function AppendPart(c: Limits, log: Log, asked: nat, p: string): Log {
    var entries := Last(c.maxEntries, log.entries + Written(p));
    if |log.live| + asked > c.maxBytes then Log(entries, p, Some(log.live))
    else Log(entries, log.live + p, log.rotated)
  }

  function Append(c: Limits, log: Log, p: string): Log {
    AppendPart(c, log, |p|, p)
  }

  /** Where a rotation can fail. */
  datatype RotateFault = CloseFails | RemoveFails | RenameFails | OpenFails

  /** The live and the rotated file after a rotation that failed. */
  function HalfRotated(live: Option<string>, rotated: Option<string>, fault: RotateFault)
    : (Option<string>, Option<string>)
  {
    match fault
    case CloseFails => (live, rotated)
    case RemoveFails => (live, rotated)
    case RenameFails => (live, None)
    case OpenFails => (None, live)
  }

  function Reopen(c: Limits, live: string, rotated: Option<string>): Option<Log> {
    if !Scannable(rotated.GetOr("")) || !Scannable(live) then None
    else Some(Log(Last(c.maxEntries, Scanned(rotated.GetOr("")) + Scanned(live)), live, rotated))
  }

  class Buffer {
    const limits: Limits
    const files: Files
    var entries: seq<string>
    var size: nat
    var open: bool

    ghost predicate Valid()
      reads this, files
    {
      && limits.maxEntries > 0 && limits.maxBytes > 0
      && (open ==> files.live.Some? && size == |files.live.value|)
      && |entries| <= limits.maxEntries
    }

    ghost function View(): Log
      reads this, files
    {
      Log(entries, files.live.GetOr(""), files.rotated)
    }

    constructor (files: Files, limits: Limits)
      ensures this.files == files && this.limits == limits && entries == [] && size == 0 && !open
    {
      this.files, this.limits := files, limits;
      entries, size, open := [], 0, false;
    }

    method AppendEntry(line: string)
      requires limits.maxEntries > 0 && |entries| <= limits.maxEntries
      modifies this`entries
      ensures entries == Last(limits.maxEntries, old(entries) + [line])
    {
      entries := entries + [line];
      var n := limits.maxEntries;
      if |entries| > n {
        var moved := entries[|entries| - n..];
        entries := moved + entries[n..];
        entries := entries[..n];
      }
    }

    /** The scanning loop. */
    method Scan(text: string) returns (ok: bool)
      requires limits.maxEntries > 0 && |entries| <= limits.maxEntries
      modifies this`entries
      ensures |entries| <= limits.maxEntries
      ensures ok <==> Scannable(text)
      ensures ok ==> entries == Last(limits.maxEntries, old(entries) + Scanned(text))
    {
      var rest := text;
      ghost var before, seen: seq<string> := entries, [];
      ScanStart(limits.maxEntries, before, text);
      while rest != ""
        invariant |entries| <= limits.maxEntries
        invariant entries == Last(limits.maxEntries, before + seen)
        invariant Progress(text, seen, rest)
        decreases |rest|
      {
        var i := FindNewline(rest);
        ScanAdvance(text, seen, rest, i);
        if i >= SCAN_LIMIT {
          return false;
        }
        var line := DropReturn(rest[..i]);
        LastStep(limits.maxEntries, before, seen, line);
        AppendEntry(line);
        seen := seen + [line];
        rest := Tail(rest, i);
      }
      ScanEnd(text, seen);
      ok := true;
    }

    /** Scan one file into memory; an absent file is empty, and one that is there may fail to open. */
    method Load(file: Option<string>, opens: bool) returns (ok: bool)
      requires limits.maxEntries > 0 && |entries| <= limits.maxEntries
      modifies this`entries
      ensures |entries| <= limits.maxEntries
      ensures ok <==> file.None? || (opens && Scannable(file.value))
      ensures ok ==> entries == Last(limits.maxEntries, old(entries) + Scanned(file.GetOr("")))
      ensures file.Some? && !opens ==> entries == old(entries)
    {
      EmptyScan();
      if file.None? {
        assert old(entries) + [] == entries;
        return true;
      }
      if !opens {
        return false;
      }
      ok := Scan(file.value);
    }

    /** Replace the rotated file by the live one and start afresh; a failure at any point leaves
        the log closed. */
    method Rotate(fault: Option<RotateFault>) returns (ok: bool)
      requires Valid() && open
      modifies this`size, this`open, files
      ensures ok <==> fault.None?
      ensures ok ==> open && files.rotated == old(files.live) && files.live == Some("") && size == 0
      ensures !ok ==> !open && size == old(size)
                      && (files.live, files.rotated) == HalfRotated(old(files.live), old(files.rotated), fault.value)
    {
      open := false;
      if fault.Some? && (fault.value.CloseFails? || fault.value.RemoveFails?) {
        return false;
      }
      files.rotated := None;
      if fault.Some? && fault.value.RenameFails? {
        return false;
      }
      files.rotated, files.live := files.live, None;
      if fault.Some? {
        return false;
      }
      files.live := Some("");
      open, size := true, 0;
      ok := true;
    }

    /** Write `p`, of which the file takes `n` bytes, rotating first when it would not fit. A closed
        log takes nothing more. */
    method Write(p: string, n: nat, fault: Option<RotateFault>) returns (written: nat)
      requires Valid() && n <= |p|
      modifies this, files
      ensures Valid()
      ensures var lost := !old(open) || (old(size) + |p| > limits.maxBytes && fault.Some?);
              && (lost ==> written == 0 && !open && entries == old(entries))
              && (!lost ==> written == n && open && View() == AppendPart(limits, old(View()), |p|, p[..n]))
      ensures !old(open) ==> files.live == old(files.live) && files.rotated == old(files.rotated)
      ensures old(open) && !open ==>
                && fault.Some?
                && (files.live, files.rotated) == HalfRotated(old(files.live), old(files.rotated), fault.value)
    {
      if !open {
        return 0;
      }
      if size + |p| > limits.maxBytes {
        var ok := Rotate(fault);
        if !ok {
          return 0;
        }
      }
      Store(p[..n]);
      written := n;
    }

    /** The bytes that reached the file, as text and as lines. */
    method Store(p: string)
      requires Valid() && open
      modifies this, files
      ensures Valid() && open && files.rotated == old(files.rotated)
      ensures files.live == Some(old(files.live).value + p)
      ensures entries == Last(limits.maxEntries, old(entries) + Written(p))
    {
      files.live := Some(files.live.value + p);
      size := size + |p|;
      var lines := Pieces(TrimNewline(p));
      ghost var before := entries;
      var i := 0;
      assert before + NonBlank(lines[..0]) == before;
      while i < |lines|
        invariant 0 <= i <= |lines|
        invariant |entries| <= limits.maxEntries
        invariant entries == Last(limits.maxEntries, before + NonBlank(lines[..i]))
        modifies this`entries
      {
        NonBlankStep(lines, i);
        if lines[i] != "" {
          LastStep(limits.maxEntries, before, NonBlank(lines[..i]), lines[i]);
          AppendEntry(lines[i]);
        }
        i := i + 1;
      }
      assert lines[..|lines|] == lines;
    }

    /** The newest lines, all of them unless a smaller positive number is asked for. */
    method Recent(limit: int) returns (result: seq<string>)
      ensures result == if limit <= 0 then entries else Last(limit, entries)
    {
      var n := limit;
      if n <= 0 || n > |entries| {
        n := |entries|;
      }
      result := entries[|entries| - n..];
    }
  }

  lemma LoadBoth<T>(n: nat, a: seq<T>, b: seq<T>)
    ensures Last(n, Last(n, [] + a) + b) == Last(n, a + b)
  {
    assert [] + a == a;
    LastLast(n, a, b);
  }

  /** What the file system allows: making the directory, opening each file that is there, and
      opening the live one again for appending. */
  datatype Access = Access(directory: bool, rotated: bool, live: bool, append: bool)

  /** The log can be opened as far as the file system is concerned; absent files need not open for reading. */
  predicate Accessible(access: Access, live: Option<string>, rotated: Option<string>) {
    access.directory && (rotated.None? || access.rotated) && (live.None? || access.live) && access.append
  }

  /** Open the log: read both files back, the rotated one first, then go on appending. */
  method NewLogBuffer(files: Files, maxEntries: int, maxBytes: int, access: Access) returns (b: Option<Buffer>)
    modifies files
    ensures b.Some? <==> maxEntries > 0 && maxBytes > 0 && Accessible(access, old(files.live), old(files.rotated))
                         && Reopen(Limits(maxEntries, maxBytes), old(files.live.GetOr("")), old(files.rotated)).Some?
    ensures b.None? ==> files.live == old(files.live) && files.rotated == old(files.rotated)
    ensures b.Some? ==> fresh(b.value) && b.value.files == files && b.value.Valid() && b.value.open
                        && b.value.limits == Limits(maxEntries, maxBytes)
                        && Reopen(b.value.limits, old(files.live.GetOr("")), old(files.rotated)) == Some(b.value.View())
  {
    if maxEntries <= 0 || maxBytes <= 0 {
      return None;
    }
    if !access.directory {
      return None;
    }
    var limits := Limits(maxEntries, maxBytes);
    var buffer := new Buffer(files, limits);
    ghost var first, second := files.rotated.GetOr(""), files.live.GetOr("");
    EmptyScan();
    var ok := buffer.Load(files.rotated, access.rotated);
    if !ok {
      return None;
    }
    ok := buffer.Load(files.live, access.live);
    if !ok || !access.append {
      return None;
    }
    LoadBoth(limits.maxEntries, Scanned(first), Scanned(second));
    files.live := Some(files.live.GetOr(""));
    buffer.size, buffer.open := |files.live.value|, true;
    b := Some(buffer);
  }

  lemma Regroup<T>(a: seq<T>, b: seq<T>, c: seq<T>)
    ensures a + (b + c) == (a + b) + c
  {
  }

  lemma {:induction false} NonBlankConcat(a: seq<string>, b: seq<string>)
    ensures NonBlank(a + b) == NonBlank(a) + NonBlank(b)
  {
    if a == [] {
      assert a + b == b;
    } else {
      NonBlankConcat(a[1..], b);
      assert (a + b)[0] == a[0] && (a + b)[1..] == a[1..] + b;
      Regroup([a[0]], NonBlank(a[1..]), NonBlank(b));
    }
  }

  lemma NonBlankStep(ls: seq<string>, i: nat)
    requires i < |ls|
    ensures NonBlank(ls[..i + 1]) == NonBlank(ls[..i]) + (if ls[i] == "" then [] else [ls[i]])
  {
    NonBlankConcat(ls[..i], [ls[i]]);
    assert ls[..i + 1] == ls[..i] + [ls[i]];
    assert NonBlank([ls[i]]) == if ls[i] == "" then [] else [ls[i]];
  }

  // ----------------------------------------------------- histories of the log

  /** A line as the structured logger writes it: not blank and unchanged by the scanner. */
  predicate Proper(l: string) {
    l != "" && OneLine(l) && l[|l| - 1] != '\r'
  }

  predicate AllProper(ls: seq<string>) {
    forall i :: 0 <= i < |ls| ==> Proper(ls[i])
  }

  /** The text of complete lines. */
  function Join(ls: seq<string>): string {
    if ls == [] then "" else ls[0] + "\n" + Join(ls[1..])
  }

  lemma {:induction false} JoinConcat(a: seq<string>, b: seq<string>)
    ensures Join(a + b) == Join(a) + Join(b)
  {
    if a == [] {
      assert a + b == b;
    } else {
      JoinConcat(a[1..], b);
      assert (a + b)[0] == a[0] && (a + b)[1..] == a[1..] + b;
      Regroup(a[0] + "\n", Join(a[1..]), Join(b));
    }
  }

  predicate AllShort(ls: seq<string>) {
    forall i :: 0 <= i < |ls| ==> |ls[i]| < SCAN_LIMIT
  }

  /** A file of proper lines scans back to those lines, unless one of them is too long. */
  lemma {:induction false} JoinScans(ls: seq<string>)
    requires AllProper(ls)
    ensures Scanned(Join(ls)) == ls && (Scannable(Join(ls)) <==> AllShort(ls))
  {
    if ls == [] {
      EmptyScan();
    } else {
      JoinScans(ls[1..]);
      LineScans(ls[0], Join(ls[1..]));
      assert ls == [ls[0]] + ls[1..];
      ShortBoth([ls[0]], ls[1..]);
    }
  }

  /** A proper line at the front of a text is scanned as itself. */
  lemma LineScans(l: string, rest: string)
    requires Proper(l)
    ensures Scanned(l + "\n" + rest) == [l] + Scanned(rest)
    ensures Scannable(l + "\n" + rest) <==> |l| < SCAN_LIMIT && Scannable(rest)
  {
    RawFirst(l, rest);
    ScannedFirst(l, rest);
  }

  lemma {:induction false} NonBlankProper(ls: seq<string>)
    requires forall i :: 0 <= i < |ls| ==> ls[i] != ""
    ensures NonBlank(ls) == ls
  {
    if ls == [] {
    } else {
      NonBlankProper(ls[1..]);
    }
  }

  /** The scanner's pieces of a text are the pieces that a write of it is cut into. */
  lemma RawIsTrimmed(p: string)
    requires p != ""
    ensures Raw(p) == Pieces(TrimNewline(p))
  {
    LastPiece('\n', p);
    if p[|p| - 1] == '\n' {
      var q := p[..|p| - 1];
      assert p == q + ['\n'] + "";
      SplitAppend('\n', q, "");
      assert Pieces(p) == Pieces(q) + [""];
    }
  }

  lemma JoinWritten(ls: seq<string>)
    requires AllProper(ls)
    ensures Written(Join(ls)) == ls
  {
    JoinScans(ls);
    if ls == [] {
      assert Written("") == [];
    } else {
      RawIsTrimmed(Join(ls));
      RawOfJoin(ls);
      NonBlankProper(ls);
    }
  }

  lemma {:induction false} RawOfJoin(ls: seq<string>)
    requires AllProper(ls)
    ensures Raw(Join(ls)) == ls
  {
    if ls == [] {
    } else {
      RawOfJoin(ls[1..]);
      RawFirst(ls[0], Join(ls[1..]));
    }
  }

  lemma {:induction false} NonBlankSize(ls: seq<string>)
    ensures |NonBlank(ls)| <= |ls|
    ensures |NonBlank(ls)| == |ls| ==> forall i :: 0 <= i < |ls| ==> ls[i] != ""
  {
    if ls == [] {
    } else {
      NonBlankSize(ls[1..]);
      assert forall i :: 0 < i < |ls| ==> ls[i] == ls[1..][i - 1];
    }
  }

  /** When memory and disk read one write alike: exactly when no piece of it is blank or ends in a
      carriage return. (Blank lines are skipped in memory and come back after a restart.) */
  lemma MemoryMatchesDisk(p: string)
    ensures Written(p) == Scanned(p) <==> forall i :: 0 <= i < |Raw(p)| ==> DropReturn(Raw(p)[i]) == Raw(p)[i] != ""
  {
    if p == "" {
      assert Raw(p) == [] && Written(p) == [];
    } else {
      RawIsTrimmed(p);
      SameLines(Raw(p));
    }
  }

  lemma SameLines(ls: seq<string>)
    ensures NonBlank(ls) == DropReturns(ls) <==> forall i :: 0 <= i < |ls| ==> DropReturn(ls[i]) == ls[i] != ""
  {
    NonBlankSize(ls);
    if forall i :: 0 <= i < |ls| ==> ls[i] != "" {
      NonBlankProper(ls);
      if ls == DropReturns(ls) {
        assert forall i :: 0 <= i < |ls| ==> DropReturns(ls)[i] == ls[i];
      }
    }
  }

  datatype Event = Appended(lines: seq<string>) | Restarted

  /** The log after a history that starts with no files; none once a restart could not read them. */
  ghost function After(c: Limits, es: seq<Event>): Option<Log> {
    if es == [] then Some(EMPTY_LOG)
    else
      var log, e := After(c, es[..|es| - 1]), es[|es| - 1];
      if log.None? then None
      else if e.Appended? then Some(Append(c, log.value, Join(e.lines)))
      else Reopen(c, log.value.live, log.value.rotated)
  }

  /** Every line ever written. */
  ghost function AllLines(es: seq<Event>): seq<string> {
    if es == [] then []
    else AllLines(es[..|es| - 1]) + (if es[|es| - 1].Appended? then es[|es| - 1].lines else [])
  }

  /** Where the rotated file, the live file and the memory begin in the lines ever written. */
  datatype Marks = Marks(rotated: nat, live: nat, memory: nat)

  ghost function MarksAfter(c: Limits, es: seq<Event>): Marks {
    if es == [] then Marks(0, 0, 0)
    else
      var m, e, n := MarksAfter(c, es[..|es| - 1]), es[|es| - 1], |AllLines(es[..|es| - 1])|;
      if e.Restarted? then m.(memory := m.rotated)
      else if |Join(From(AllLines(es[..|es| - 1]), m.live))| + |Join(e.lines)| > c.maxBytes then
        Marks(m.live, n, m.memory)
      else m
  }

  /** The lines from an index on; none beyond the end. */
  ghost function From(ls: seq<string>, i: nat): seq<string> {
    if i <= |ls| then ls[i..] else []
  }

  ghost predicate ProperHistory(es: seq<Event>) {
    forall i :: 0 <= i < |es| && es[i].Appended? ==> AllProper(es[i].lines)
  }

  /** What the history's log must look like. */
  ghost predicate Holds(c: Limits, es: seq<Event>, log: Log) {
    var all, m := AllLines(es), MarksAfter(c, es);
    && m.rotated <= m.live <= |all| && m.memory <= m.rotated
    && AllProper(all)
    && log.rotated.GetOr("") == Join(all[m.rotated..m.live])
    && log.live == Join(all[m.live..])
    && log.entries == Last(c.maxEntries, all[m.memory..])
  }

  lemma Appending(es: seq<Event>, e: Event)
    ensures (es + [e])[..|es + [e]| - 1] == es && (es + [e])[|es + [e]| - 1] == e
    ensures AllLines(es + [e]) == AllLines(es) + (if e.Appended? then e.lines else [])
  {
    assert (es + [e])[..|es|] == es;
  }

  lemma Slices<T>(a: seq<T>, b: seq<T>, i: nat, j: nat)
    requires i <= j <= |a|
    ensures (a + b)[i..j] == a[i..j] && (a + b)[i..|a|] == a[i..] && (a + b)[|a|..] == b
    ensures (a + b)[j..] == a[j..] + b && (a + b)[i..] == a[i..] + b && a[i..] == a[i..j] + a[j..]
  {
  }

  lemma AppendHolds(c: Limits, es: seq<Event>, ls: seq<string>, log: Log)
    requires Holds(c, es, log) && AllProper(ls)
    ensures Holds(c, es + [Appended(ls)], Append(c, log, Join(ls)))
  {
    Appending(es, Appended(ls));
    var all, m := AllLines(es), MarksAfter(c, es);
    JoinWritten(ls);
    AppendedMarks(c, es, ls, log);
    Slices(all, ls, m.rotated, m.live);
    Slices(all, ls, m.memory, m.live);
    LastLast(c.maxEntries, all[m.memory..], ls);
    JoinConcat(all[m.live..], ls);
  }

  lemma AppendedMarks(c: Limits, es: seq<Event>, ls: seq<string>, log: Log)
    requires Holds(c, es, log)
    ensures var m := MarksAfter(c, es);
            MarksAfter(c, es + [Appended(ls)]) ==
            if |log.live| + |Join(ls)| > c.maxBytes then Marks(m.live, |AllLines(es)|, m.memory) else m
  {
    Appending(es, Appended(ls));
  }

  lemma ShortBoth(a: seq<string>, b: seq<string>)
    ensures AllShort(a + b) <==> AllShort(a) && AllShort(b)
  {
    assert forall i :: 0 <= i < |a| ==> a[i] == (a + b)[i];
    assert forall i :: 0 <= i < |b| ==> b[i] == (a + b)[|a| + i];
  }

  lemma ReopenHolds(c: Limits, es: seq<Event>, log: Log)
    requires Holds(c, es, log)
    ensures var again, rotated := Reopen(c, log.live, log.rotated), MarksAfter(c, es).rotated;
            && (again.Some? <==> AllShort(AllLines(es)[rotated..]))
            && (again.Some? ==>
                  && again.value == Log(Last(c.maxEntries, AllLines(es)[rotated..]), log.live, log.rotated)
                  && Holds(c, es + [Restarted], again.value))
  {
    Appending(es, Restarted);
    var all, m := AllLines(es), MarksAfter(c, es);
    assert AllLines(es + [Restarted]) == all;
    Slices(all, [], m.rotated, m.live);
    ProperSlices(all, m.rotated, m.live);
    JoinScans(all[m.rotated..m.live]);
    JoinScans(all[m.live..]);
    ShortBoth(all[m.rotated..m.live], all[m.live..]);
  }

  lemma ProperSlices(ls: seq<string>, i: nat, j: nat)
    requires i <= j <= |ls| && AllProper(ls)
    ensures AllProper(ls[i..j]) && AllProper(ls[j..])
  {
  }

  /** Memory, both files and the text of every line agree over any history of writes of proper
      lines and restarts: memory is the last `maxEntries` lines from its mark on. */
  lemma LogAgrees(c: Limits, es: seq<Event>)
    requires ProperHistory(es) && After(c, es).Some?
    ensures Holds(c, es, After(c, es).value)
  {
    AgreesUpTo(c, es, |es|);
    assert es[..|es|] == es;
  }

  ghost predicate Agrees(c: Limits, es: seq<Event>) {
    After(c, es).Some? ==> Holds(c, es, After(c, es).value)
  }

  lemma {:induction false} AgreesUpTo(c: Limits, es: seq<Event>, i: nat)
    requires ProperHistory(es) && i <= |es|
    ensures Agrees(c, es[..i])
    decreases i
  {
    if i == 0 {
      EmptyHolds(c);
      assert es[..0] == [];
    } else {
      AgreesUpTo(c, es, i - 1);
      AgreesStep(c, es[..i - 1], es[i - 1]);
      assert es[..i] == es[..i - 1] + [es[i - 1]];
    }
  }

  lemma AgreesStep(c: Limits, es: seq<Event>, e: Event)
    requires Agrees(c, es) && (e.Appended? ==> AllProper(e.lines))
    ensures Agrees(c, es + [e])
  {
    AfterStep(c, es, e);
    if After(c, es).Some? {
      if e.Appended? {
        AppendHolds(c, es, e.lines, After(c, es).value);
      } else {
        ReopenHolds(c, es, After(c, es).value);
      }
    }
  }

  lemma EmptyHolds(c: Limits)
    ensures Holds(c, [], EMPTY_LOG)
  {
    assert AllLines([]) == [];
  }

  lemma AfterStep(c: Limits, es: seq<Event>, e: Event)
    ensures var log := After(c, es);
            After(c, es + [e]) ==
            if log.None? then None
            else if e.Appended? then Some(Append(c, log.value, Join(e.lines)))
            else Reopen(c, log.value.live, log.value.rotated)
  {
    Appending(es, e);
  }

  ghost predicate NoRestart(es: seq<Event>) {
    forall i :: 0 <= i < |es| ==> es[i].Appended?
  }

  lemma {:induction false} NeverRestarted(c: Limits, es: seq<Event>)
    requires NoRestart(es)
    ensures After(c, es).Some? && MarksAfter(c, es).memory == 0
  {
    if es == [] {
    } else {
      NeverRestarted(c, es[..|es| - 1]);
    }
  }

  /** While the process runs, memory is exactly the last `maxEntries` lines ever written. */
  lemma MemoryIsLastLines(c: Limits, es: seq<Event>)
    requires ProperHistory(es) && NoRestart(es)
    ensures After(c, es).Some?
    ensures After(c, es).value.entries == Last(c.maxEntries, AllLines(es))
  {
    NeverRestarted(c, es);
    LogAgrees(c, es);
    assert AllLines(es)[0..] == AllLines(es);
  }

  /** A restart succeeds exactly when no surviving line reaches the scanner's limit; it then holds
      the last lines that survive on disk, a suffix of what was in memory, and all of it exactly
      when nothing of it was dropped or enough lines survive. */
  lemma RestartKeepsSuffix(c: Limits, es: seq<Event>)
    requires ProperHistory(es) && After(c, es).Some?
    ensures var log, m, all := After(c, es).value, MarksAfter(c, es), AllLines(es);
            var again := Reopen(c, log.live, log.rotated);
            && m.memory <= m.rotated <= |all|
            && (again.Some? <==> AllShort(all[m.rotated..]))
            && (again.Some? ==>
                  && again.value.entries == Last(c.maxEntries, all[m.rotated..])
                  && |again.value.entries| <= |log.entries|
                  && again.value.entries == Last(|again.value.entries|, log.entries)
                  && (again.value.entries == log.entries <==>
                        m.rotated == m.memory || |all| - m.rotated >= c.maxEntries))
  {
    LogAgrees(c, es);
    ReopenHolds(c, es, After(c, es).value);
    var m := MarksAfter(c, es);
    SuffixOfLast(c.maxEntries, AllLines(es), m.memory, m.rotated);
  }

  /** The last `n` elements from a later mark are a suffix of those from an earlier one. */
  lemma SuffixOfLast<T>(n: nat, s: seq<T>, i: nat, j: nat)
    requires i <= j <= |s|
    ensures var a, b := Last(n, s[i..]), Last(n, s[j..]);
            && |b| <= |a| && b == Last(|b|, a)
            && (b == a <==> i == j || |s| - j >= n)
  {
    var a, b := Last(n, s[i..]), Last(n, s[j..]);
    assert |a| == if |s| - i <= n then |s| - i else n;
    assert |b| == if |s| - j <= n then |s| - j else n;
    assert a == s[|s| - |a|..] && b == s[|s| - |b|..];
  }

  /** The live file is within its limit or holds a single write. */
  lemma {:induction false} LiveIsBounded(c: Limits, es: seq<Event>)
    requires After(c, es).Some?
    ensures || |After(c, es).value.live| <= c.maxBytes
            || exists i :: 0 <= i < |es| && SingleWrite(es, i, After(c, es).value.live)
  {
    if es == [] {
    } else {
      var before := es[..|es| - 1];
      LiveIsBounded(c, before);
      if es[|es| - 1].Appended? {
        if |After(c, es).value.live| > c.maxBytes {
          assert SingleWrite(es, |es| - 1, After(c, es).value.live);
        }
      } else if |After(c, before).value.live| > c.maxBytes {
        var i :| 0 <= i < |before| && SingleWrite(before, i, After(c, before).value.live);
        assert SingleWrite(es, i, After(c, es).value.live);
      }
    }
  }

  /** A line of the given length. */
  function LongLine(n: nat): (l: string)
    ensures |l| == n && OneLine(l)
    ensures n > 0 ==> Proper(l)
  {
    seq(n, i => 'x')
  }

  /** A history of one logged line. */
  ghost function Logged(l: string): seq<Event> {
    [Appended([l])]
  }

  /** One logged line of a mebibyte makes the next start fail; one byte less does not. */
  lemma LongLineStopsRestart(c: Limits)
    ensures var es := Logged(LongLine(1048576));
            ProperHistory(es) && After(c, es).Some? && After(c, es + [Restarted]).None?
    ensures After(c, Logged(LongLine(1048575)) + [Restarted]).Some?
  {
    OneLineHistory(c, LongLine(1048576));
    OneLineHistory(c, LongLine(1048575));
  }

  lemma OneLineHistory(c: Limits, l: string)
    requires Proper(l)
    ensures ProperHistory(Logged(l)) && After(c, Logged(l)).Some?
    ensures After(c, Logged(l) + [Restarted]).Some? <==> |l| < SCAN_LIMIT
  {
    OneAppended(c, l);
    assert AllLines(Logged(l))[0..] == [l];
    OneShort(l);
    RestartIff(c, Logged(l));
  }

  lemma OneShort(l: string)
    ensures AllShort([l]) <==> |l| < SCAN_LIMIT
  {
    assert [l][0] == l;
  }

  /** A restart succeeds exactly when no surviving line is too long. */
  lemma RestartIff(c: Limits, es: seq<Event>)
    requires After(c, es).Some? && Holds(c, es, After(c, es).value)
    ensures MarksAfter(c, es).rotated <= |AllLines(es)|
    ensures After(c, es + [Restarted]).Some? <==> AllShort(AllLines(es)[MarksAfter(c, es).rotated..])
  {
    ReopenHolds(c, es, After(c, es).value);
    AfterStep(c, es, Restarted);
  }

  lemma OneAppended(c: Limits, l: string)
    requires Proper(l)
    ensures var es := [Appended([l])];
            && ProperHistory(es) && After(c, es).Some? && Holds(c, es, After(c, es).value)
            && AllLines(es) == [l] && MarksAfter(c, es).rotated == 0
  {
    var es := [Appended([l])];
    assert es == [] + [Appended([l])];
    AfterStep(c, [], Appended([l]));
    Appending([], Appended([l]));
    EmptyHolds(c);
    LogAgrees(c, es);
  }

  /** A blank line is skipped in memory and comes back after a restart. */
  lemma BlankLineReturns(c: Limits)
    requires c.maxEntries > 0
    ensures Append(c, EMPTY_LOG, "\n").entries == []
    ensures Reopen(c, "\n", None).Some? && Reopen(c, "\n", None).value.entries == [""]
  {
    SplitFirst("", "");
    assert "" + "\n" + "" == "\n";
    assert Pieces("") == [""];
    assert Raw("\n") == [""] && Scanned("\n") == [""];
    EmptyScan();
    assert Written("\n") == [] by {
      assert TrimNewline("\n") == "";
    }
    assert [] + [""] == [""];
  }

  ghost predicate SingleWrite(es: seq<Event>, i: nat, text: string)
    requires i < |es|
  {
    es[i].Appended? && text == Join(es[i].lines)
  }

  // -------------------------------------------------------------- line by line

  /** Reading a file back takes its lines one by one, ended by a newline with or without a carriage
      return, and a last one without its end when there is one. */
  lemma ScannedLineByLine(l: string, rest: string)
    requires OneLine(l) && (l != "" ==> l[|l| - 1] != '\r')
    ensures Scanned("") == []
    ensures Scanned(l + "\n" + rest) == [l] + Scanned(rest)
    ensures Scanned(l + "\r" + "\n" + rest) == [l] + Scanned(rest)
    ensures l != "" ==> Scanned(l) == [l] && Scanned(l + "\r") == [l]
  {
    EmptyScan();
    ScannedFirst(l, rest);
    var cr := l + "\r";
    assert cr[..|cr| - 1] == l && cr[|cr| - 1] == '\r';
    ScannedFirst(cr, rest);
    if l != "" {
      LastLineScanned(l);
      LastLineScanned(cr);
    }
  }

  /** A last line without its newline. */
  lemma LastLineScanned(l: string)
    requires OneLine(l) && l != ""
    ensures Scanned(l) == [DropReturn(l)]
  {
    SplitPlain('\n', l);
  }

  /** A write adds its lines one by one, without the blank ones. */
  lemma WrittenLineByLine(l: string, p: string)
    requires OneLine(l) && p != ""
    ensures Written("") == []
    ensures Written(l + "\n" + p) == (if l == "" then [] else [l]) + Written(p)
    ensures Written(l) == Written(l + "\n") == if l == "" then [] else [l]
  {
    SplitPlain('\n', "");
    SplitPlain('\n', l);
    assert TrimNewline(l) == l;
    assert (l + "\n")[..|l|] == l;
    var all := l + "\n" + p;
    var n := |all| - 1;
    assert all[n] == p[|p| - 1] && all[..n] == l + "\n" + p[..|p| - 1];
    SplitFirst(l, TrimNewline(p));
    assert TrimNewline(all) == l + "\n" + TrimNewline(p);
    assert ([l] + Pieces(TrimNewline(p)))[1..] == Pieces(TrimNewline(p));
  }

  /** A rotation that fails keeps the live lines in one of the two files, and drops the rotated ones only
      once the old rotated file is gone. */
  lemma FailedRotationKeeps(live: Option<string>, rotated: Option<string>, fault: RotateFault)
    ensures var (l, r) := HalfRotated(live, rotated, fault);
            && (l == live || r == live)
            && (fault == CloseFails || fault == RemoveFails ==> l == live && r == rotated)
            && (fault == RenameFails ==> l == live && r == None)
            && (fault == OpenFails ==> l == None && r == live)
  {
  }
}
