/** The catalog file: its validation, and routing from hostnames to packs
    (internal/config/config.go). Text is ASCII; machine integers are 64 bits wide. */
module Config {
  import opened Strings
  import opened Wrappers

  type PackId = string

  // -------------------------------------------------------------------- text

  predicate IsSpace(c: char) {
    c == ' ' || c == '\t' || c == '\n' || c == '\r' || c == '\U{000B}' || c == '\U{000C}'
  }

  function TrimLeft(s: string): string {
    if s != "" && IsSpace(s[0]) then TrimLeft(s[1..]) else s
  }

  function TrimRight(s: string): string {
    if s != "" && IsSpace(s[|s| - 1]) then TrimRight(s[..|s| - 1]) else s
  }

  function TrimSpace(s: string): string {
    TrimRight(TrimLeft(s))
  }

  function TrimSuffix(s: string, suffix: string): string {
    if HasSuffix(s, suffix) then s[..|s| - |suffix|] else s
  }

  function LowerChar(c: char): char {
    if 'A' <= c <= 'Z' then c - 'A' + 'a' else c
  }

  function ToLower(s: string): (r: string)
    ensures |r| == |s| && forall i :: 0 <= i < |s| ==> r[i] == LowerChar(s[i])
  {
    seq(|s|, i requires 0 <= i < |s| => LowerChar(s[i]))
  }

  /** Everything before the last colon; the whole text when there is none. */
  function CutPort(s: string): string {
    CutPortAt(s, |s|)
  }

  function CutPortAt(s: string, end: nat): string
    requires end <= |s|
  {
    if end == 0 then s else if s[end - 1] == ':' then s[..end - 1] else CutPortAt(s, end - 1)
  }

  predicate Alnum(c: char) {
    'a' <= c <= 'z' || '0' <= c <= '9'
  }

  /** A lowercase label in the sense of section 2.3.1 of RFC 1035, first character as relaxed by
      section 2.1 of RFC 1123. */
  predicate DnsLabel(s: string) {
    && 1 <= |s| <= 63
    && Alnum(s[0]) && Alnum(s[|s| - 1])
    && forall i :: 0 <= i < |s| ==> Alnum(s[i]) || s[i] == '-'
  }

  /** The pieces between dots; at least one. */
  function Labels(s: string): (parts: seq<string>)
    ensures |parts| >= 1
  {
    Split('.', s)
  }

  // ---------------------------------------------------------------- the catalog

  datatype Pack = Pack(
    displayName: string, provider: string, projectId: string, versionId: string, fileId: int,
    java: int, memoryMb: int, machineMemoryMb: int, machineCpus: int, excludes: seq<string>)

  datatype Runtime = Runtime(
    durations: seq<int>, maxConnections: int, connectionsPerMinute: int, addresses: seq<string>)

  datatype Capacity = Capacity(memoryMb: int, cpus: int)

  datatype Storage = Storage(driver: string, evict: bool, root: string, endpoint: string, bucket: string,
                             remote: string)

  const MAX_INT: int := 0x7fff_ffff_ffff_ffff

  /** The sum of two machine integers. */
  function Wrap(x: int): int {
    if x > MAX_INT then x - 0x1_0000_0000_0000_0000 else x
  }

  datatype PackFault =
    | NotALabel | NamesMissing | JavaVersion | HeapMemory | MachineMemory | Headroom | MachineCpus
    | ModrinthVersion | CurseForgeFile | CurseForgeExcludes | UnknownProvider | ExcludePattern

  datatype Problem =
    | SchemaVersion | DomainName | DomainLabel | MemoryCapacity | CpuCapacity | Durations | Addresses
    | ConnectionLimits | FilesystemRoot | EvictionNeedsRemote | S3Fields | RcloneRemote | UnknownDriver
    | InPack(id: PackId, fault: PackFault)

  predicate BadPattern(s: string) {
    TrimSpace(s) == "" || exists c :: c in s && (c == ',' || c == '\r' || c == '\n')
  }

  /** What is wrong with one pack. */
  predicate Faulty(cap: Capacity, id: PackId, p: Pack, fault: PackFault) {
    match fault
    case NotALabel => !DnsLabel(id)
    case NamesMissing => p.displayName == "" || p.projectId == ""
    case JavaVersion => p.java != 17 && p.java != 21
    case HeapMemory => p.memoryMb <= 0
    case MachineMemory => p.machineMemoryMb <= 0 || p.machineMemoryMb > cap.memoryMb || p.machineMemoryMb % 256 != 0
    case Headroom => Wrap(p.memoryMb + 256) > p.machineMemoryMb
    case MachineCpus => p.machineCpus <= 0 || p.machineCpus > cap.cpus
    case ModrinthVersion => p.provider == "modrinth" && (p.versionId == "" || p.fileId != 0)
    case CurseForgeFile => p.provider == "curseforge" && (p.fileId <= 0 || p.versionId != "")
    case CurseForgeExcludes => p.provider == "curseforge" && p.excludes != []
    case UnknownProvider => p.provider != "modrinth" && p.provider != "curseforge"
    case ExcludePattern => exists i :: 0 <= i < |p.excludes| && BadPattern(p.excludes[i])
  }

  predicate ValidDomain(domain: string) {
    && domain != "" && |domain| <= 253
    && forall l :: l in Labels(domain) ==> DnsLabel(l)
  }

  function NormalDomain(domain: string): string {
    ToLower(TrimSuffix(TrimSpace(domain), "."))
  }

  /** The loop over the exclusion patterns stops at the first bad one. */
  method ExcludesProblem(patterns: seq<string>) returns (bad: bool)
    ensures bad <==> exists i :: 0 <= i < |patterns| && BadPattern(patterns[i])
  {
    var i := 0;
    while i < |patterns|
      invariant 0 <= i <= |patterns|
      invariant forall j :: 0 <= j < i ==> !BadPattern(patterns[j])
    {
      if BadPattern(patterns[i]) {
        return true;
      }
      i := i + 1;
    }
    bad := false;
  }

  predicate AboutNames(f: PackFault) {
    f.NotALabel? || f.NamesMissing? || f.JavaVersion?
  }

  predicate AboutResources(f: PackFault) {
    f.HeapMemory? || f.MachineMemory? || f.Headroom? || f.MachineCpus?
  }

  predicate AboutProvider(f: PackFault) {
    f.ModrinthVersion? || f.CurseForgeFile? || f.CurseForgeExcludes? || f.UnknownProvider?
  }

  method NameFaults(cap: Capacity, id: PackId, p: Pack) returns (faults: seq<PackFault>)
    ensures forall f :: f in faults <==> AboutNames(f) && Faulty(cap, id, p, f)
  {
    faults := [];
    if !DnsLabel(id) { faults := faults + [NotALabel]; }
    if p.displayName == "" || p.projectId == "" { faults := faults + [NamesMissing]; }
    if p.java != 17 && p.java != 21 { faults := faults + [JavaVersion]; }
  }

  method ResourceFaults(cap: Capacity, id: PackId, p: Pack) returns (faults: seq<PackFault>)
    ensures forall f :: f in faults <==> AboutResources(f) && Faulty(cap, id, p, f)
  {
    faults := [];
    if p.memoryMb <= 0 { faults := faults + [HeapMemory]; }
    if p.machineMemoryMb <= 0 || p.machineMemoryMb > cap.memoryMb || p.machineMemoryMb % 256 != 0 {
      faults := faults + [MachineMemory];
    }
    if Wrap(p.memoryMb + 256) > p.machineMemoryMb { faults := faults + [Headroom]; }
    if p.machineCpus <= 0 || p.machineCpus > cap.cpus { faults := faults + [MachineCpus]; }
  }

  /** The switch on the provider. */
  method ProviderFaults(cap: Capacity, id: PackId, p: Pack) returns (faults: seq<PackFault>)
    ensures forall f :: f in faults <==> AboutProvider(f) && Faulty(cap, id, p, f)
  {
    faults := [];
    ProvidersDiffer();
    if p.provider == "modrinth" {
      if p.versionId == "" || p.fileId != 0 { faults := faults + [ModrinthVersion]; }
    } else if p.provider == "curseforge" {
      if p.fileId <= 0 || p.versionId != "" { faults := faults + [CurseForgeFile]; }
      if |p.excludes| != 0 { faults := faults + [CurseForgeExcludes]; }
    } else {
      faults := [UnknownProvider];
    }
  }

  method PackFaults(cap: Capacity, id: PackId, p: Pack) returns (faults: seq<PackFault>)
    ensures forall f :: f in faults <==> Faulty(cap, id, p, f)
  {
    var names := NameFaults(cap, id, p);
    var resources := ResourceFaults(cap, id, p);
    var provider := ProviderFaults(cap, id, p);
    faults := names + resources + provider;
    var bad := ExcludesProblem(p.excludes);
    if bad { faults := faults + [ExcludePattern]; }
  }

  lemma ProvidersDiffer()
    ensures "modrinth" != "curseforge"
  {
    assert "modrinth"[0] == 'm' && "curseforge"[0] == 'c';
  }

  class Config {
    const schema: int
    var domain: string
    const runtime: Runtime
    const capacity: Capacity
    const storage: Storage
    const packs: map<PackId, Pack>

    constructor (schema: int, domain: string, runtime: Runtime, capacity: Capacity, storage: Storage,
                 packs: map<PackId, Pack>)
      ensures this.schema == schema && this.domain == domain && this.runtime == runtime
      ensures this.capacity == capacity && this.storage == storage && this.packs == packs
    {
      this.schema, this.domain, this.runtime := schema, domain, runtime;
      this.capacity, this.storage, this.packs := capacity, storage, packs;
    }

    /** What a problem means, one by one. */
    ghost predicate Violated(problem: Problem)
      reads this
    {
      match problem
      case SchemaVersion => schema != 1
      case DomainName => domain == "" || |domain| > 253
      case DomainLabel => exists l :: l in Labels(domain) && !DnsLabel(l)
      case MemoryCapacity => capacity.memoryMb <= 0
      case CpuCapacity => capacity.cpus <= 0
      case Durations => exists i :: 0 <= i < |runtime.durations| && runtime.durations[i] <= 0
      case Addresses => "" in runtime.addresses
      case ConnectionLimits => runtime.maxConnections <= 0 || runtime.connectionsPerMinute <= 0
      case FilesystemRoot => storage.driver == "filesystem" && storage.root == ""
      case EvictionNeedsRemote => storage.driver == "filesystem" && storage.evict
      case S3Fields => storage.driver == "s3" && (storage.endpoint == "" || storage.bucket == "")
      case RcloneRemote => storage.driver == "rclone" && storage.remote == ""
      case UnknownDriver => storage.driver !in {"filesystem", "s3", "rclone"}
      case InPack(id, fault) => id in packs && Faulty(capacity, id, packs[id], fault)
    }

    /** Rewrite the domain in place and list every problem. */
    method Validate() returns (problems: seq<Problem>)
      modifies this`domain
      ensures domain == NormalDomain(old(domain))
      ensures forall p :: p in problems <==> Violated(p)
    {
      domain := ToLower(TrimSuffix(TrimSpace(domain), "."));
      var general := GeneralProblems();
      var storing := StorageProblems();
      var inPacks := PackProblems();
      problems := general + storing + inPacks;
      forall p
        ensures p in problems <==> Violated(p)
      {
        assert p in problems <==> p in general || p in storing || p in inPacks;
      }
    }

    ghost predicate General(p: Problem) {
      p in {SchemaVersion, DomainName, DomainLabel, MemoryCapacity, CpuCapacity, Durations, Addresses, ConnectionLimits}
    }

    ghost predicate Storing(p: Problem) {
      p in {FilesystemRoot, EvictionNeedsRemote, S3Fields, RcloneRemote, UnknownDriver}
    }

    method GeneralProblems() returns (problems: seq<Problem>)
      ensures forall p :: p in problems <==> General(p) && Violated(p)
    {
      var domainProblems := DomainProblems();
      var limitProblems := LimitProblems();
      problems := domainProblems + limitProblems;
      forall p
        ensures p in problems <==> General(p) && Violated(p)
      {
        assert p in problems <==> p in domainProblems || p in limitProblems;
      }
    }

    method DomainProblems() returns (problems: seq<Problem>)
      ensures forall p :: p in problems ==> p in {SchemaVersion, DomainName, DomainLabel}
      ensures SchemaVersion in problems <==> Violated(SchemaVersion)
      ensures DomainName in problems <==> Violated(DomainName)
      ensures DomainLabel in problems <==> Violated(DomainLabel)
    {
      problems := [];
      if schema != 1 { problems := problems + [SchemaVersion]; }
      if domain == "" || |domain| > 253 { problems := problems + [DomainName]; }
      var labels := Labels(domain);
      var i := 0;
      while i < |labels| && DnsLabel(labels[i])
        invariant 0 <= i <= |labels|
        invariant forall j :: 0 <= j < i ==> DnsLabel(labels[j])
      {
        i := i + 1;
      }
      if i < |labels| {
        assert labels[i] in Labels(domain);
        problems := problems + [DomainLabel];
      }
    }

    method LimitProblems() returns (problems: seq<Problem>)
      ensures forall p :: p in problems ==> p in {MemoryCapacity, CpuCapacity, Durations, Addresses, ConnectionLimits}
      ensures MemoryCapacity in problems <==> Violated(MemoryCapacity)
      ensures CpuCapacity in problems <==> Violated(CpuCapacity)
      ensures Durations in problems <==> Violated(Durations)
      ensures Addresses in problems <==> Violated(Addresses)
      ensures ConnectionLimits in problems <==> Violated(ConnectionLimits)
    {
      problems := [];
      if capacity.memoryMb <= 0 { problems := problems + [MemoryCapacity]; }
      if capacity.cpus <= 0 { problems := problems + [CpuCapacity]; }
      if exists k :: 0 <= k < |runtime.durations| && runtime.durations[k] <= 0 { problems := problems + [Durations]; }
      if "" in runtime.addresses { problems := problems + [Addresses]; }
      if runtime.maxConnections <= 0 || runtime.connectionsPerMinute <= 0 { problems := problems + [ConnectionLimits]; }
    }

    method StorageProblems() returns (problems: seq<Problem>)
      ensures forall p :: p in problems <==> Storing(p) && Violated(p)
    {
      DriversDiffer();
      problems := [];
      if storage.driver == "filesystem" {
        if storage.root == "" { problems := problems + [FilesystemRoot]; }
        if storage.evict { problems := problems + [EvictionNeedsRemote]; }
      } else if storage.driver == "s3" {
        if storage.endpoint == "" || storage.bucket == "" { problems := problems + [S3Fields]; }
      } else if storage.driver == "rclone" {
        if storage.remote == "" { problems := problems + [RcloneRemote]; }
      } else {
        problems := [UnknownDriver];
      }
    }

    /** The loop over the packs. */
    method PackProblems() returns (problems: seq<Problem>)
      ensures forall p :: p in problems <==> p.InPack? && Violated(p)
    {
      problems := [];
      var rest := packs.Keys;
      while rest != {}
        invariant rest <= packs.Keys
        invariant forall p :: p in problems <==> p.InPack? && p.id !in rest && Violated(p)
        decreases |rest|
      {
        var id :| id in rest;
        var faults := PackFaults(capacity, id, packs[id]);
        var here := seq(|faults|, i requires 0 <= i < |faults| => InPack(id, faults[i]));
        forall p
          ensures p in here <==> p.InPack? && p.id == id && Violated(p)
        {
          if p.InPack? && p.id == id && p.fault in faults {
            var i :| 0 <= i < |faults| && faults[i] == p.fault;
            assert here[i] == p;
          }
        }
        problems := problems + here;
        rest := rest - {id};
      }
    }

    /** The pack that a hostname is for; the host is trimmed, lowered, cut at its last colon and
        stripped of the domain. */
    method PackForHost(host: string) returns (id: PackId, pack: Option<Pack>, ok: bool)
      ensures (id, ok) == Routed(packs.Keys, domain, host)
      ensures pack == if ok then Some(packs[id]) else None
    {
      var name := ToLower(TrimSuffix(TrimSpace(host), "."));
      var i := |name|;
      while i > 0 && name[i - 1] != ':'
        invariant 0 <= i <= |name|
        invariant CutPortAt(name, i) == CutPort(name)
      {
        i := i - 1;
      }
      if i > 0 {
        name := name[..i - 1];
      }
      var suffix := "." + domain;
      if !HasSuffix(name, suffix) {
        return "", None, false;
      }
      id := TrimSuffix(name, suffix);
      if '.' in id || id == "" {
        return "", None, false;
      }
      ok := id in packs;
      pack := if ok then Some(packs[id]) else None;
    }
  }

  lemma DriversDiffer()
    ensures "filesystem" != "s3" && "filesystem" != "rclone" && "s3" != "rclone"
  {
    assert "filesystem"[0] == 'f' && "s3"[0] == 's' && "rclone"[0] == 'r';
  }

  // -------------------------------------------------------------------- routing

  /** The host name that a client's host text stands for. */
  function NormalHost(host: string): string {
    CutPort(ToLower(TrimSuffix(TrimSpace(host), ".")))
  }

  function Routed(ids: set<PackId>, domain: string, host: string): (PackId, bool) {
    var name, suffix := NormalHost(host), "." + domain;
    if !HasSuffix(name, suffix) then ("", false)
    else
      var id := TrimSuffix(name, suffix);
      if '.' in id || id == "" then ("", false) else (id, id in ids)
  }

  ghost predicate ValidIds(ids: set<PackId>) {
    forall id :: id in ids ==> DnsLabel(id)
  }

  /** The catalog's public hostname of a pack. */
  function Hostname(id: PackId, domain: string): string {
    id + "." + domain
  }

  lemma LabelPlain(s: string)
    requires DnsLabel(s)
    ensures s != ""
    ensures forall i :: 0 <= i < |s| ==> s[i] != '.' && s[i] != ':' && !IsSpace(s[i]) && LowerChar(s[i]) == s[i]
  {
  }

  /** Routing inverts the construction of hostnames: a host reaches a pack exactly when its
      normal form is that pack's hostname. */
  lemma RoutingExact(ids: set<PackId>, domain: string, host: string, id: PackId)
    requires ValidIds(ids)
    ensures Routed(ids, domain, host) == (id, true) <==> id in ids && NormalHost(host) == Hostname(id, domain)
  {
    var name, suffix := NormalHost(host), "." + domain;
    if id in ids && name == Hostname(id, domain) {
      LabelPlain(id);
      assert name == id + suffix;
      assert name[|id|..] == suffix && name[..|id|] == id;
    }
  }

  /** No host stands for two packs. */
  lemma HostnameInjective(id: PackId, other: PackId, domain: string)
    ensures Hostname(id, domain) == Hostname(other, domain) <==> id == other
  {
    if Hostname(id, domain) == Hostname(other, domain) {
      assert |id| == |other|;
      assert id == Hostname(id, domain)[..|id|] == other;
    }
  }

  /** A text that routing leaves as it is. */
  predicate Plain(s: string) {
    forall i :: 0 <= i < |s| ==> s[i] != ':' && !IsSpace(s[i]) && LowerChar(s[i]) == s[i]
  }

  lemma {:induction false} LabelsPlain(s: string)
    requires forall l :: l in Labels(s) ==> DnsLabel(l)
    ensures Plain(s) && s != "" && Alnum(s[|s| - 1])
  {
    var parts := Labels(s);
    assert parts[0] in parts;
    if s != "" {
      LabelPrefix(s);
    }
  }

  /** Labels of the right end of a domain: the first piece may have lost its beginning. */
  ghost predicate RightLabels(parts: seq<string>)
    requires |parts| >= 1
  {
    && (forall i :: 0 < i < |parts| ==> DnsLabel(parts[i]))
    && (forall i :: 0 <= i < |parts[0]| ==> Alnum(parts[0][i]) || parts[0][i] == '-')
    && (|parts| == 1 ==> parts[0] == "" || Alnum(parts[0][|parts[0]| - 1]))
  }

  lemma DropDot(rest: seq<string>)
    requires |rest| >= 1 && RightLabels([""] + rest)
    ensures RightLabels(rest) && rest[0] != ""
  {
    var parts := [""] + rest;
    assert forall i :: 0 <= i < |rest| ==> rest[i] == parts[i + 1];
  }

  lemma DropChar(c: char, rest: seq<string>)
    requires |rest| >= 1 && RightLabels([[c] + rest[0]] + rest[1..])
    ensures RightLabels(rest) && (Alnum(c) || c == '-') && (rest == [""] ==> Alnum(c))
  {
    var parts := [[c] + rest[0]] + rest[1..];
    assert parts[0][0] == c;
    assert forall i :: 0 < i < |rest| ==> rest[i] == parts[i];
    assert forall i :: 0 <= i < |rest[0]| ==> rest[0][i] == parts[0][i + 1];
  }

  /** Labels seen from the right: the last character is that of the last label. */
  lemma {:induction false} LabelPrefix(s: string)
    requires s != "" && RightLabels(Labels(s))
    ensures Plain(s) && Alnum(s[|s| - 1])
  {
    var rest := Labels(s[1..]);
    if s[0] == '.' {
      DropDot(rest);
    } else {
      DropChar(s[0], rest);
    }
    if |s| == 1 {
      assert s[1..] == "" && rest == [""];
    } else {
      LabelPrefix(s[1..]);
      assert forall i :: 0 < i < |s| ==> s[i] == s[1..][i - 1];
    }
  }

  lemma {:induction false} NoColon(s: string, end: nat)
    requires end <= |s| && Plain(s)
    ensures CutPortAt(s, end) == s
  {
    if end == 0 {
    } else {
      NoColon(s, end - 1);
    }
  }

  /** A plain name that does not end in a dot is its own normal form. */
  lemma PlainNormal(name: string)
    requires Plain(name) && name != "" && name[|name| - 1] != '.'
    ensures NormalHost(name) == name
  {
    assert TrimSpace(name) == name;
    assert !HasSuffix(name, ".");
    assert ToLower(name) == name;
    NoColon(name, |name|);
  }

  /** Every hostname that the catalog publishes routes back to its own pack. */
  lemma CatalogRoutesBack(ids: set<PackId>, domain: string, id: PackId)
    requires ValidIds(ids) && ValidDomain(domain) && id in ids
    ensures Routed(ids, domain, Hostname(id, domain)) == (id, true)
  {
    LabelPlain(id);
    LabelsPlain(domain);
    var name := Hostname(id, domain);
    assert Plain(name) by {
      forall i | 0 <= i < |name|
        ensures name[i] != ':' && !IsSpace(name[i]) && LowerChar(name[i]) == name[i]
      {
        if i < |id| {
          assert name[i] == id[i];
        } else if i > |id| {
          assert name[i] == domain[i - |id| - 1];
        }
      }
    }
    assert name[|name| - 1] == domain[|domain| - 1];
    PlainNormal(name);
    RoutingExact(ids, domain, name, id);
  }

  lemma {:induction false} CutAt(s: string, i: nat, end: nat)
    requires i < end <= |s| && s[i] == ':' && forall j :: i < j < end ==> s[j] != ':'
    ensures CutPortAt(s, end) == s[..i]
  {
    if i == end - 1 {
    } else {
      CutAt(s, i, end - 1);
    }
  }

  /** A port is cut off, but a final dot before the port is not: such a host reaches no pack. */
  lemma DotBeforePort(ids: set<PackId>, domain: string, host: string, port: string)
    requires ValidIds(ids) && ValidDomain(domain) && Plain(host) && host != ""
    requires port != "" && forall i :: 0 <= i < |port| ==> '0' <= port[i] <= '9'
    ensures NormalHost(host + ":" + port) == host
    ensures host[|host| - 1] == '.' ==> !Routed(ids, domain, host + ":" + port).1
  {
    PortIsCut(host, port);
    if host[|host| - 1] == '.' {
      var routed := Routed(ids, domain, host + ":" + port);
      if routed.1 {
        RoutingExact(ids, domain, host + ":" + port, routed.0);
        LabelsPlain(domain);
      }
    }
  }

  lemma PortIsCut(host: string, port: string)
    requires Plain(host) && host != ""
    requires port != "" && forall i :: 0 <= i < |port| ==> '0' <= port[i] <= '9'
    ensures NormalHost(host + ":" + port) == host
  {
    var all := host + ":" + port;
    assert all[0] == host[0] && all[|all| - 1] == port[|port| - 1];
    assert TrimSpace(all) == all;
    assert !HasSuffix(all, ".");
    PortLowered(host, port);
    CutAt(all, |host|, |all|);
    assert all[..|host|] == host;
  }

  lemma PortLowered(host: string, port: string)
    requires Plain(host)
    requires forall i :: 0 <= i < |port| ==> '0' <= port[i] <= '9'
    ensures ToLower(host + ":" + port) == host + ":" + port
  {
    var all := host + ":" + port;
    forall i | 0 <= i < |all|
      ensures LowerChar(all[i]) == all[i]
    {
      if i < |host| {
        assert all[i] == host[i];
      } else if i > |host| {
        assert all[i] == port[i - |host| - 1];
      }
    }
  }

  // ---------------------------------------------------- spellings of one hostname

  predicate Blank(c: char) {
    c == ' ' || c == '\t' || c == '\n' || c == '\r' || c == '\U{000B}' || c == '\U{000C}'
  }

  predicate Spaces(s: string) {
    forall i :: 0 <= i < |s| ==> Blank(s[i])
  }

  predicate Digits(s: string) {
    forall i :: 0 <= i < |s| ==> '0' <= s[i] <= '9'
  }

  /** The same letter, capital or not. */
  predicate SameLetter(c: char, d: char) {
    c == d || ('a' <= c <= 'z' && d == c - 'a' + 'A') || ('a' <= d <= 'z' && c == d - 'a' + 'A')
  }

  /** The same text but for capitals. */
  predicate SameLetters(s: string, t: string) {
    |s| == |t| && forall i :: 0 <= i < |s| ==> SameLetter(s[i], t[i])
  }

  /** A host without anything that routing takes off: no space at either end, no final dot, no colon. */
  predicate Bare(h: string) {
    && h != "" && !Blank(h[0]) && !Blank(h[|h| - 1]) && h[|h| - 1] != '.'
    && forall i :: 0 <= i < |h| ==> h[i] != ':'
  }

  /** `host` is `h` with some letters in the other case, spaces around it, and one final dot or a port. */
  ghost predicate SpellingOf(h: string, host: string) {
    exists left, t, tail, right ::
      && host == left + (t + tail) + right && Spaces(left) && Spaces(right) && SameLetters(h, t)
      && (tail == "" || tail == "." || (tail != "" && tail[0] == ':' && Digits(tail[1..])))
  }

  lemma {:induction false} LeftTrimmed(left: string, s: string)
    requires Spaces(left) && s != "" && !Blank(s[0])
    ensures TrimLeft(left + s) == s
  {
    if left == "" {
      assert left + s == s;
    } else {
      assert (left + s)[1..] == left[1..] + s && (left + s)[0] == left[0];
      LeftTrimmed(left[1..], s);
    }
  }

  lemma {:induction false} RightTrimmed(s: string, right: string)
    requires Spaces(right) && s != "" && !Blank(s[|s| - 1])
    ensures TrimRight(s + right) == s
  {
    if right == "" {
      assert s + right == s;
    } else {
      var n := |right| - 1;
      assert (s + right)[..|s + right| - 1] == s + right[..n] && (s + right)[|s| + n] == right[n];
      RightTrimmed(s, right[..n]);
    }
  }

  lemma Trimmed(left: string, s: string, right: string)
    requires Spaces(left) && Spaces(right) && s != "" && !Blank(s[0]) && !Blank(s[|s| - 1])
    ensures TrimSpace(left + s + right) == s
  {
    assert left + s + right == left + (s + right) && (s + right)[0] == s[0];
    LeftTrimmed(left, s + right);
    RightTrimmed(s, right);
  }

  lemma SameLowered(s: string, t: string)
    requires SameLetters(s, t)
    ensures ToLower(s) == ToLower(t)
  {
  }

  lemma LoweredTail(t: string, tail: string)
    requires tail != "" && tail[0] == ':' && Digits(tail[1..])
    ensures ToLower(t + tail) == ToLower(t) + tail
  {
    forall i | |t| <= i < |t + tail|
      ensures LowerChar((t + tail)[i]) == tail[i - |t|]
    {
      assert i > |t| ==> tail[i - |t|] == tail[1..][i - |t| - 1];
    }
  }

  lemma {:induction false} NoColonAt(s: string, end: nat)
    requires end <= |s| && forall j :: 0 <= j < |s| ==> s[j] != ':'
    ensures CutPortAt(s, end) == s
  {
    if end == 0 {
    } else {
      NoColonAt(s, end - 1);
    }
  }

  lemma DotTaken(t: string, tail: string)
    requires t != "" && t[|t| - 1] != '.' && (tail == "" || tail == ".")
    ensures TrimSuffix(t + tail, ".") == t
  {
    var all := t + tail;
    if tail == "" {
      assert all == t && all[|all| - 1..] == [t[|t| - 1]];
    } else {
      assert all[|all| - 1..] == "." && all[..|all| - 1] == t;
    }
  }

  /** The part of a spelled host between its spaces, brought to its normal form. */
  lemma TailTaken(t: string, tail: string)
    requires Bare(t)
    requires tail == "" || tail == "." || (tail[0] == ':' && Digits(tail[1..]))
    ensures CutPort(ToLower(TrimSuffix(t + tail, "."))) == ToLower(t)
  {
    var all := t + tail;
    if tail == "" || tail == "." {
      DotTaken(t, tail);
      NoColonAt(ToLower(t), |t|);
    } else {
      assert all[|all| - 1] == tail[|tail| - 1];
      assert |tail| > 1 ==> tail[|tail| - 1] == tail[1..][|tail| - 2];
      assert !HasSuffix(all, ".");
      LoweredTail(t, tail);
      var low := ToLower(t) + tail;
      forall j | |t| < j < |low|
        ensures low[j] != ':'
      {
        assert low[j] == tail[1..][j - |t| - 1];
      }
      CutAt(low, |t|, |low|);
      assert low[..|t|] == ToLower(t);
    }
  }

  lemma SpelledNormal(h: string, host: string)
    requires Bare(h) && SpellingOf(h, host)
    ensures NormalHost(host) == ToLower(h)
  {
    var left, t, tail, right :|
      && host == left + (t + tail) + right && Spaces(left) && Spaces(right) && SameLetters(h, t)
      && (tail == "" || tail == "." || (tail != "" && tail[0] == ':' && Digits(tail[1..])));
    SameBare(h, t);
    LastOfTail(t, tail);
    Trimmed(left, t + tail, right);
    TailTaken(t, tail);
    SameLowered(h, t);
  }

  lemma LastOfTail(t: string, tail: string)
    requires Bare(t)
    requires tail == "" || tail == "." || (tail[0] == ':' && Digits(tail[1..]))
    ensures t + tail != "" && !Blank((t + tail)[0]) && !Blank((t + tail)[|t + tail| - 1])
  {
    var all := t + tail;
    if tail == "" {
      assert all == t;
    } else {
      assert all[|all| - 1] == tail[|tail| - 1];
      assert |tail| > 1 ==> tail[|tail| - 1] == tail[1..][|tail| - 2];
    }
  }

  lemma BareNormal(h: string)
    requires Bare(h)
    ensures NormalHost(h) == ToLower(h)
  {
    assert "" + h + "" == h && h + "" == h;
    Trimmed("", h, "");
    TailTaken(h, "");
  }

  lemma SameBare(h: string, t: string)
    requires Bare(h) && SameLetters(h, t)
    ensures Bare(t)
  {
    assert SameLetter(h[0], t[0]) && SameLetter(h[|h| - 1], t[|t| - 1]);
    forall i | 0 <= i < |t|
      ensures t[i] != ':'
    {
      assert SameLetter(h[i], t[i]);
    }
  }

  /** Routing does not depend on the spelling of a host: capitals, spaces around it, one final dot and
      a port change nothing. */
  lemma SpellingRoutesAlike(ids: set<PackId>, domain: string, h: string, host: string)
    requires Bare(h) && SpellingOf(h, host)
    ensures Routed(ids, domain, host) == Routed(ids, domain, h)
  {
    SpelledNormal(h, host);
    BareNormal(h);
  }

  lemma HostnameBare(id: PackId, domain: string)
    requires DnsLabel(id) && Plain(domain) && domain != "" && Alnum(domain[|domain| - 1])
    ensures Bare(id + "." + domain)
  {
    var h := id + "." + domain;
    LabelPlain(id);
    assert h[0] == id[0] && h[|h| - 1] == domain[|domain| - 1];
    forall i | 0 <= i < |h|
      ensures h[i] != ':'
    {
      assert h[i] == if i < |id| then id[i] else if i == |id| then '.' else domain[i - |id| - 1];
    }
  }

  /** Every spelling of a pack's hostname reaches the pack. */
  lemma EverySpellingRoutes(ids: set<PackId>, domain: string, id: PackId, host: string)
    requires ValidIds(ids) && ValidDomain(domain) && id in ids && SpellingOf(id + "." + domain, host)
    ensures Routed(ids, domain, host) == (id, true)
  {
    var h := id + "." + domain;
    LabelPlain(id);
    LabelsPlain(domain);
    HostnameBare(id, domain);
    SpellingRoutesAlike(ids, domain, h, host);
    CatalogRoutesBack(ids, domain, id);
  }

  /** Every spelling of a domain has the same normal form, the one in small letters. */
  lemma DomainSpellings(domain: string, t: string, left: string, dot: string, right: string)
    requires Bare(domain) && Plain(domain) && SameLetters(domain, t)
    requires Spaces(left) && Spaces(right) && (dot == "" || dot == ".")
    ensures NormalDomain(left + (t + dot) + right) == domain
  {
    SameBare(domain, t);
    LastOfTail(t, dot);
    Trimmed(left, t + dot, right);
    DotTaken(t, dot);
    SameLowered(domain, t);
    assert ToLower(domain) == domain;
  }

  // ------------------------------------------------------ exactly the hosts of a pack

  predicate NoColons(s: string) {
    forall i :: 0 <= i < |s| ==> s[i] != ':'
  }

  /** The parts that routing sees in a host: spaces around it, the name, a colon with whatever follows
      it up to the last one, and one final dot. */
  datatype HostParts = HostParts(left: string, name: string, port: string, dot: string, right: string)

  predicate PartsOf(p: HostParts, host: string) {
    && host == p.left + (p.name + (p.port + p.dot)) + p.right && Spaces(p.left) && Spaces(p.right)
    && (p.port == "" || (p.port[0] == ':' && NoColons(p.port[1..])))
    && (p.dot == "" || p.dot == ".")
  }

  lemma {:induction false} LeftParts(s: string) returns (left: string)
    ensures s == left + TrimLeft(s) && Spaces(left)
  {
    if s != "" && IsSpace(s[0]) {
      left := LeftParts(s[1..]);
      left := [s[0]] + left;
      assert s == [s[0]] + s[1..];
    } else {
      left := "";
    }
  }

  lemma {:induction false} RightParts(s: string) returns (right: string)
    ensures s == TrimRight(s) + right && Spaces(right)
  {
    if s != "" && IsSpace(s[|s| - 1]) {
      var n := |s| - 1;
      right := RightParts(s[..n]);
      right := right + [s[n]];
      assert s == s[..n] + [s[n]];
    } else {
      right := "";
    }
  }

  /** Where the last colon cuts a text. */
  lemma {:induction false} CutParts(s: string, end: nat) returns (port: string)
    requires end <= |s| && NoColons(s[end..])
    ensures s == CutPortAt(s, end) + port
    ensures port == "" || (port[0] == ':' && NoColons(port[1..]))
  {
    if end == 0 {
      port := "";
    } else if s[end - 1] == ':' {
      port := s[end - 1..];
      assert port[1..] == s[end..];
    } else {
      assert s[end - 1..] == [s[end - 1]] + s[end..];
      port := CutParts(s, end - 1);
    }
  }

  /** Every host has such parts, and its normal form is its name in small letters. */
  lemma HostHasParts(host: string) returns (p: HostParts)
    ensures PartsOf(p, host) && NormalHost(host) == ToLower(p.name)
  {
    var left := LeftParts(host);
    var right := RightParts(TrimLeft(host));
    var n := TrimSuffix(TrimSpace(host), ".");
    var dot := DotPart(TrimSpace(host));
    var port := CutParts(n, |n|);
    CutLowered(n, |n|);
    p := HostParts(left, CutPort(n), port, dot, right);
    Regrouped(left, CutPort(n), port, dot, right);
  }

  lemma DotPart(text: string) returns (dot: string)
    ensures text == TrimSuffix(text, ".") + dot && (dot == "" || dot == ".")
  {
    dot := text[|TrimSuffix(text, ".")|..];
  }

  lemma Regrouped(left: string, name: string, port: string, dot: string, right: string)
    ensures left + (((name + port) + dot) + right) == left + (name + (port + dot)) + right
  {
  }

  lemma {:induction false} CutLowered(s: string, end: nat)
    requires end <= |s|
    ensures CutPortAt(ToLower(s), end) == ToLower(CutPortAt(s, end))
  {
    if end == 0 {
    } else if s[end - 1] == ':' {
      assert ToLower(s)[..end - 1] == ToLower(s[..end - 1]);
    } else {
      CutLowered(s, end - 1);
    }
  }

  /** Trimming on the right does not reach past a character that is no space. */
  lemma {:induction false} TrimStops(s: string, more: string) returns (kept: string)
    requires s != "" && !Blank(s[|s| - 1])
    ensures TrimRight(s + more) == s + kept && kept <= more
  {
    var all := s + more;
    if more == "" || !IsSpace(more[|more| - 1]) {
      kept := more;
      assert more == "" ==> all == s;
    } else {
      var n := |more| - 1;
      assert all[..|all| - 1] == s + more[..n];
      kept := TrimStops(s, more[..n]);
    }
  }

  /** A name that is bare is all that routing keeps of a host with these parts. */
  lemma PartsNormal(p: HostParts, host: string)
    requires PartsOf(p, host) && Bare(p.name)
    ensures NormalHost(host) == ToLower(p.name)
  {
    if p.port == "" {
      assert p.port + p.dot == p.dot;
      SpelledHost(p, host);
    } else {
      var start := p.name + ":";
      var more := p.port[1..] + p.dot + p.right;
      assert host == p.left + (start + more);
      LeftTrimmed(p.left, start + more);
      var kept := TrimStops(start, more);
      PortNormal(p.name, kept, p, more);
    }
  }

  lemma SpelledHost(p: HostParts, host: string)
    requires PartsOf(p, host) && Bare(p.name) && p.port == "" && p.port + p.dot == p.dot
    ensures NormalHost(host) == ToLower(p.name)
  {
    LastOfTail(p.name, p.dot);
    Trimmed(p.left, p.name + p.dot, p.right);
    TailTaken(p.name, p.dot);
  }

  lemma PortNormal(name: string, kept: string, p: HostParts, more: string)
    requires p.port != "" && more == p.port[1..] + p.dot + p.right && kept <= more
    requires NoColons(p.port[1..]) && (p.dot == "" || p.dot == ".") && Spaces(p.right)
    ensures CutPort(ToLower(TrimSuffix(name + ":" + kept, "."))) == ToLower(name)
  {
    assert NoColons(more);
    var text := name + ":" + kept;
    var n := TrimSuffix(text, ".");
    assert kept == "" ==> text[|text| - 1..] == ":";
    assert |n| > |name|;
    var low := ToLower(n);
    forall j | |name| < j < |low|
      ensures low[j] != ':'
    {
      assert n[j] == more[j - |name| - 1];
    }
    CutAt(low, |name|, |low|);
    assert low[..|name|] == ToLower(name);
  }

  /** A pack's hosts, exactly: a host reaches the pack if and only if its name is the pack's hostname,
      whatever the capitals, spaces around it, a colon with anything up to the next one, and one dot
      at the very end. */
  lemma HostsExactly(ids: set<PackId>, domain: string, host: string, id: PackId)
    requires ValidIds(ids) && ValidDomain(domain)
    ensures Routed(ids, domain, host) == (id, true) <==>
            id in ids && exists p :: PartsOf(p, host) && SameLetters(id + "." + domain, p.name)
  {
    LabelsPlain(domain);
    RoutingExact(ids, domain, host, id);
    if Routed(ids, domain, host) == (id, true) {
      var p := HostHasParts(host);
      LoweredIsSame(id + "." + domain, p.name);
    }
    if id in ids {
      forall p | PartsOf(p, host) && SameLetters(id + "." + domain, p.name)
        ensures Routed(ids, domain, host) == (id, true)
      {
        HostnameBare(id, domain);
        SameBare(id + "." + domain, p.name);
        PartsNormal(p, host);
        HostnameLow(id, domain);
        SameLowered(id + "." + domain, p.name);
      }
    }
  }

  /** What the answer names: a host below the domain names its first label, configured or not. */
  lemma RoutedNames(ids: set<PackId>, domain: string, host: string)
    ensures var (id, ok) := Routed(ids, domain, host);
            && (ok <==> id != "" && id in ids)
            && (forall x :: x != "" ==> (id == x <==> '.' !in x && NormalHost(host) == x + "." + domain))
  {
    var name, suffix := NormalHost(host), "." + domain;
    forall x | x != "" && '.' !in x && name == x + "." + domain
      ensures Routed(ids, domain, host).0 == x
    {
      assert name == x + suffix && name[|x|..] == suffix && name[..|x|] == x;
    }
  }

  lemma LoweredIsSame(h: string, t: string)
    requires ToLower(t) == h
    ensures SameLetters(h, t)
  {
  }

  lemma HostnameLow(id: PackId, domain: string)
    requires DnsLabel(id) && Plain(domain)
    ensures ToLower(id + "." + domain) == id + "." + domain
  {
    var h := id + "." + domain;
    forall i | 0 <= i < |h|
      ensures LowerChar(h[i]) == h[i]
    {
      assert h[i] == if i < |id| then id[i] else if i == |id| then '.' else domain[i - |id| - 1];
    }
  }

  // ------------------------------------------------------------------ validation

  /** What a configuration with no problems gives to routing. */
  lemma AcceptedRoutes(c: Config, host: string, id: PackId)
    requires forall p :: !c.Violated(p)
    ensures ValidDomain(c.domain) && ValidIds(c.packs.Keys)
    ensures Routed(c.packs.Keys, c.domain, host) == (id, true)
            <==> id in c.packs && NormalHost(host) == Hostname(id, c.domain)
    ensures id in c.packs ==> Routed(c.packs.Keys, c.domain, Hostname(id, c.domain)) == (id, true)
  {
    assert !c.Violated(DomainName) && !c.Violated(DomainLabel);
    forall other | other in c.packs
      ensures DnsLabel(other)
    {
      assert !c.Violated(InPack(other, NotALabel));
    }
    RoutingExact(c.packs.Keys, c.domain, host, id);
    if id in c.packs {
      CatalogRoutesBack(c.packs.Keys, c.domain, id);
    }
  }

  /** A domain that validation accepted is left alone by another validation. */
  lemma AcceptedDomainStable(domain: string)
    requires ValidDomain(domain)
    ensures NormalDomain(domain) == domain
  {
    LabelsPlain(domain);
    assert TrimSpace(domain) == domain;
    assert !HasSuffix(domain, ".");
    assert ToLower(domain) == domain;
  }

  /** The memory an accepted pack leaves outside its heap: the promised 256 megabytes exactly when
      adding them to the heap does not overflow a machine integer. */
  lemma HeadroomExact(cap: Capacity, id: PackId, p: Pack)
    requires p.memoryMb <= MAX_INT && p.machineMemoryMb <= MAX_INT
    requires !Faulty(cap, id, p, HeapMemory) && !Faulty(cap, id, p, MachineMemory) && !Faulty(cap, id, p, Headroom)
    ensures p.memoryMb + 256 <= p.machineMemoryMb <= cap.memoryMb <==> p.memoryMb <= MAX_INT - 256
  {
  }

  /** A pack whose heap is the largest machine integer. */
  const OVERSIZED := Pack("Oversized", "modrinth", "project", "version", 0, 17, MAX_INT, 256, 1, [])

  /** A pack that validation accepts on a machine of 256 megabytes, with no room for its heap. */
  lemma HeadroomMissed()
    ensures forall fault :: !Faulty(Capacity(256, 1), "a", OVERSIZED, fault)
    ensures OVERSIZED.memoryMb + 256 > OVERSIZED.machineMemoryMb
  {
    ProvidersDiffer();
    assert DnsLabel("a");
    assert OVERSIZED.displayName != "" && OVERSIZED.projectId != "" && OVERSIZED.versionId != "";
    assert Wrap(OVERSIZED.memoryMb + 256) <= 256;
  }

  // ------------------------------------------------------ exactly what is accepted

  const LETTERS_AND_DIGITS := "abcdefghijklmnopqrstuvwxyz0123456789"

  lemma LettersInOrder(i: nat)
    requires i < 36
    ensures LETTERS_AND_DIGITS[i] == if i < 26 then 'a' + i as char else '0' + (i - 26) as char
  {
  }

  lemma AlnumExactly(c: char)
    ensures Alnum(c) <==> c in LETTERS_AND_DIGITS
  {
    var all := LETTERS_AND_DIGITS;
    if 'a' <= c <= 'z' {
      LettersInOrder((c - 'a') as int);
      assert all[(c - 'a') as int] == c;
    } else if '0' <= c <= '9' {
      LettersInOrder(26 + (c - '0') as int);
      assert all[26 + (c - '0') as int] == c;
    }
    if c in all {
      var i :| 0 <= i < |all| && all[i] == c;
      LettersInOrder(i);
    }
  }

  /** A label is one to sixty-three small letters, digits and hyphens, no hyphen at either end. */
  lemma LabelExactly(s: string)
    ensures DnsLabel(s) <==>
            && 0 < |s| < 64 && s[0] in LETTERS_AND_DIGITS && s[|s| - 1] in LETTERS_AND_DIGITS
            && forall c :: c in s ==> c in LETTERS_AND_DIGITS || c == '-'
  {
    forall c: char
      ensures Alnum(c) <==> c in LETTERS_AND_DIGITS
    {
      AlnumExactly(c);
    }
  }

  lemma {:induction false} TrimmedAway(s: string)
    ensures TrimRight(s) == "" <==> Spaces(s)
  {
    if s != "" {
      TrimmedAway(s[..|s| - 1]);
      assert Spaces(s) ==> Blank(s[|s| - 1]);
      assert Spaces(s[..|s| - 1]) && Blank(s[|s| - 1]) ==> Spaces(s) by {
        assert forall i :: 0 <= i < |s| - 1 ==> s[..|s| - 1][i] == s[i];
      }
    }
  }

  /** A pattern is good exactly when it has a character that is no space, and no comma or line break. */
  lemma PatternExactly(s: string)
    ensures !BadPattern(s) <==>
            && (exists i :: 0 <= i < |s| && !Blank(s[i]))
            && ',' !in s && '\r' !in s && '\n' !in s
  {
    var left := LeftParts(s);
    TrimmedAway(TrimLeft(s));
    SpacesTogether(left, TrimLeft(s));
  }

  lemma SpacesTogether(a: string, b: string)
    ensures Spaces(a + b) <==> Spaces(a) && Spaces(b)
  {
    if Spaces(a + b) {
      assert forall i :: 0 <= i < |a| ==> a[i] == (a + b)[i];
      assert forall i :: 0 <= i < |b| ==> b[i] == (a + b)[|a| + i];
    }
  }

  /** What keeps a pack from having each fault. */
  lemma SoundPack(cap: Capacity, id: PackId, p: Pack)
    requires p.memoryMb <= 0x7fff_ffff_ffff_ffff
    ensures !Faulty(cap, id, p, NotALabel) <==> DnsLabel(id)
    ensures !Faulty(cap, id, p, NamesMissing) <==> |p.displayName| > 0 && |p.projectId| > 0
    ensures !Faulty(cap, id, p, JavaVersion) <==> p.java in {17, 21}
    ensures !Faulty(cap, id, p, HeapMemory) <==> p.memoryMb >= 1
    ensures !Faulty(cap, id, p, MachineMemory) <==>
            exists n: int :: n >= 1 && p.machineMemoryMb == 256 * n && 256 * n <= cap.memoryMb
    ensures !Faulty(cap, id, p, Headroom) <==>
            if p.memoryMb <= 0x7fff_ffff_ffff_feff then p.memoryMb + 256 <= p.machineMemoryMb
            else p.memoryMb - 0xffff_ffff_ffff_ff00 <= p.machineMemoryMb
    ensures !Faulty(cap, id, p, MachineCpus) <==> 1 <= p.machineCpus <= cap.cpus
  {
    if !Faulty(cap, id, p, MachineMemory) {
      assert p.machineMemoryMb == 256 * (p.machineMemoryMb / 256);
    }
  }

  lemma SoundSource(cap: Capacity, id: PackId, p: Pack)
    ensures !Faulty(cap, id, p, ModrinthVersion) <==>
            (p.provider == "modrinth" ==> |p.versionId| > 0 && p.fileId == 0)
    ensures !Faulty(cap, id, p, CurseForgeFile) <==>
            (p.provider == "curseforge" ==> p.fileId >= 1 && |p.versionId| == 0)
    ensures !Faulty(cap, id, p, CurseForgeExcludes) <==> (p.provider == "curseforge" ==> |p.excludes| == 0)
    ensures !Faulty(cap, id, p, UnknownProvider) <==> p.provider in {"modrinth", "curseforge"}
    ensures !Faulty(cap, id, p, ExcludePattern) <==> forall e :: e in p.excludes ==> !BadPattern(e)
  {
  }

  /** What an accepted pack is. */
  ghost predicate AcceptedPack(cap: Capacity, id: PackId, p: Pack) {
    && DnsLabel(id) && |p.displayName| > 0 && |p.projectId| > 0 && p.java in {17, 21}
    && p.memoryMb >= 1 && 1 <= p.machineCpus <= cap.cpus
    && (exists n: int :: n >= 1 && p.machineMemoryMb == 256 * n && 256 * n <= cap.memoryMb)
    && (p.memoryMb <= 0x7fff_ffff_ffff_feff ==> p.memoryMb + 256 <= p.machineMemoryMb)
    && (forall e :: e in p.excludes ==> !BadPattern(e))
    && (if p.provider == "modrinth" then |p.versionId| > 0 && p.fileId == 0
        else p.provider == "curseforge" && p.fileId >= 1 && |p.versionId| == 0 && |p.excludes| == 0)
  }

  lemma AcceptedPackExactly(cap: Capacity, id: PackId, p: Pack)
    requires p.memoryMb <= 0x7fff_ffff_ffff_ffff
    ensures (forall fault :: !Faulty(cap, id, p, fault)) <==> AcceptedPack(cap, id, p)
  {
    SoundPack(cap, id, p);
    SoundSource(cap, id, p);
    if AcceptedPack(cap, id, p) {
      forall fault
        ensures !Faulty(cap, id, p, fault)
      {
        match fault
        case NotALabel =>
        case NamesMissing =>
        case JavaVersion =>
        case HeapMemory =>
        case MachineMemory =>
        case Headroom =>
        case MachineCpus =>
        case ModrinthVersion => ProvidersDiffer();
        case CurseForgeFile => ProvidersDiffer();
        case CurseForgeExcludes => ProvidersDiffer();
        case UnknownProvider =>
        case ExcludePattern =>
      }
    }
  }

  /** A configuration apart from its packs. */
  ghost predicate AcceptedFrame(c: Config)
    reads c
  {
    && c.schema == 1 && 0 < |c.domain| < 254 && (forall l :: l in Split('.', c.domain) ==> DnsLabel(l))
    && c.capacity.memoryMb >= 1 && c.capacity.cpus >= 1
    && (forall d :: d in c.runtime.durations ==> d >= 1)
    && (forall a :: a in c.runtime.addresses ==> |a| > 0)
    && c.runtime.maxConnections >= 1 && c.runtime.connectionsPerMinute >= 1
    && (if c.storage.driver == "filesystem" then |c.storage.root| > 0 && !c.storage.evict
        else if c.storage.driver == "s3" then |c.storage.endpoint| > 0 && |c.storage.bucket| > 0
        else c.storage.driver == "rclone" && |c.storage.remote| > 0)
  }

  /** What keeps a configuration from each problem of its own. */
  lemma SoundFrame(c: Config)
    ensures !c.Violated(SchemaVersion) <==> c.schema == 1
    ensures !c.Violated(DomainName) <==> 0 < |c.domain| < 254
    ensures !c.Violated(DomainLabel) <==> forall l :: l in Split('.', c.domain) ==> DnsLabel(l)
    ensures !c.Violated(MemoryCapacity) <==> c.capacity.memoryMb >= 1
    ensures !c.Violated(CpuCapacity) <==> c.capacity.cpus >= 1
    ensures !c.Violated(Durations) <==> forall d :: d in c.runtime.durations ==> d >= 1
    ensures !c.Violated(Addresses) <==> forall a :: a in c.runtime.addresses ==> |a| > 0
    ensures !c.Violated(ConnectionLimits) <==> c.runtime.maxConnections >= 1 && c.runtime.connectionsPerMinute >= 1
  {
    assert forall a: string :: |a| == 0 ==> a == "";
    assert forall i :: 0 <= i < |c.runtime.durations| ==> c.runtime.durations[i] in c.runtime.durations;
  }

  lemma SoundStorage(c: Config)
    ensures !c.Violated(FilesystemRoot) <==> (c.storage.driver == "filesystem" ==> |c.storage.root| > 0)
    ensures !c.Violated(EvictionNeedsRemote) <==> (c.storage.driver == "filesystem" ==> !c.storage.evict)
    ensures !c.Violated(S3Fields) <==>
            (c.storage.driver == "s3" ==> |c.storage.endpoint| > 0 && |c.storage.bucket| > 0)
    ensures !c.Violated(RcloneRemote) <==> (c.storage.driver == "rclone" ==> |c.storage.remote| > 0)
    ensures !c.Violated(UnknownDriver) <==>
            c.storage.driver == "filesystem" || c.storage.driver == "s3" || c.storage.driver == "rclone"
  {
  }

  predicate PacksInRange(c: Config) {
    forall id :: id in c.packs ==> c.packs[id].memoryMb <= 0x7fff_ffff_ffff_ffff
  }

  lemma PacksExactly(c: Config)
    requires PacksInRange(c)
    ensures (forall id, fault :: !c.Violated(InPack(id, fault))) <==>
            forall id :: id in c.packs ==> AcceptedPack(c.capacity, id, c.packs[id])
  {
    forall id | id in c.packs
      ensures (forall fault :: !c.Violated(InPack(id, fault))) <==> AcceptedPack(c.capacity, id, c.packs[id])
    {
      AcceptedPackExactly(c.capacity, id, c.packs[id]);
      assert forall fault :: c.Violated(InPack(id, fault)) == Faulty(c.capacity, id, c.packs[id], fault);
    }
  }

  /** The problems that are not about one pack. */
  lemma FrameExactly(c: Config)
    ensures (forall p: Problem :: !p.InPack? ==> !c.Violated(p)) <==> AcceptedFrame(c)
  {
    DriversDiffer();
    SoundFrame(c);
    SoundStorage(c);
    if AcceptedFrame(c) {
      forall p: Problem | !p.InPack?
        ensures !c.Violated(p)
      {
        FrameProblem(c, p);
      }
    }
  }

  lemma FrameProblem(c: Config, p: Problem)
    requires AcceptedFrame(c) && !p.InPack?
    ensures !c.Violated(p)
  {
    DriversDiffer();
    SoundFrame(c);
    SoundStorage(c);
  }

  /** Validation accepts a configuration exactly when each of its parts is in order: nothing is refused
      for any other reason, and nothing is let through. */
  lemma AcceptedExactly(c: Config)
    requires PacksInRange(c)
    ensures (forall p :: !c.Violated(p)) <==>
            AcceptedFrame(c) && forall id :: id in c.packs ==> AcceptedPack(c.capacity, id, c.packs[id])
  {
    FrameExactly(c);
    PacksExactly(c);
    EveryProblem(c);
  }

  lemma EveryProblem(c: Config)
    ensures (forall p :: !c.Violated(p)) <==>
            && (forall p: Problem :: !p.InPack? ==> !c.Violated(p))
            && (forall id, fault :: !c.Violated(InPack(id, fault)))
  {
    if (forall p: Problem :: !p.InPack? ==> !c.Violated(p)) && forall id, fault :: !c.Violated(InPack(id, fault)) {
      forall p
        ensures !c.Violated(p)
      {
        if p.InPack? {
          assert p == InPack(p.id, p.fault);
        }
      }
    }
  }
}
