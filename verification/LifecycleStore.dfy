/** The lifecycle's commit steps are the Commit of the store: first on generation numbers, then,
    over whole runs, on the string keys of one shared store. */
module LifecycleStore {
  import opened Wrappers
  import opened Paths
  import opened Strings
  import opened Sections
  import opened Archive
  import opened Generations
  import opened Keys
  import opened Lifecycle
  import opened LifecycleInvariant
  import opened LifecycleControl
  import opened LifecycleSteps
  import opened LifecycleTheorems
  import opened LifecycleWorlds
  import Store

  // ------------------------------------------- the steps of one stop are one Commit

  /** The next step of a stop, unless its attempt has already ended. */
  ghost function Onward(cfg: Config, s: Sys, t: nat, c: Choice): Sys {
    if t in s.workers && s.workers[t].StopW? && !s.workers[t].pc.Unrecorded? then StopStep(cfg, s, t, s.workers[t], c)
    else s
  }

  /** The head check, the upload, the manifest and the verification of one attempt. */
  ghost function CommitSteps(cfg: Config, s: Sys, t: nat, a: Attempt, tree: Forest): Sys {
    var s1 := Onward(cfg, s, t, Go);
    var s2 := Onward(cfg, s1, t, Put(a.archivePut, tree, a.bytes));
    var s3 := Onward(cfg, s2, t, Put(a.manifestPut, tree, 0));
    Onward(cfg, s3, t, Go)
  }

  /** A stop at `pc`, with the pack's vault replaced. */
  ghost function With(s: Sys, t: nat, kind: StopKind, id: PackId, v: Vault, pc: StopPc): Sys {
    Goto(s.(vaults := s.vaults[id := v]), t, StopW(kind, id, pc))
  }

  lemma CheckIs(cfg: Config, s: Sys, t: nat, kind: StopKind, id: PackId, expected: nat)
    requires t in s.workers && s.workers[t] == StopW(kind, id, CheckHead(expected))
    ensures Onward(cfg, s, t, Go) ==
            Goto(s, t, StopW(kind, id,
                             if HeadGen(VaultOf(s, id), id) == expected then Upload(expected + 1) else Unrecorded))
  {
  }

  lemma UploadIs(cfg: Config, s: Sys, t: nat, kind: StopKind, id: PackId, a: Attempt, tree: Forest)
    requires t in s.workers && s.workers[t] == StopW(kind, id, Upload(a.expected + 1))
    requires a.source == if id in s.dirs then Some(tree) else None
    ensures Onward(cfg, s, t, Put(a.archivePut, tree, a.bytes)) ==
            With(s, t, kind, id, PutArchive(VaultOf(s, id), a.expected + 1, Uploaded(a).0, Uploaded(a).1),
                 if a.source.Some? && a.archivePut.Stored? then Publish(ManifestOf(id, a.expected + 1, Uploaded(a).0))
                 else Unrecorded)
  {
  }

  lemma PublishIs(cfg: Config, s: Sys, t: nat, kind: StopKind, id: PackId, m: Manifest, outcome: PutOutcome,
                  tree: Forest)
    requires t in s.workers && s.workers[t] == StopW(kind, id, Publish(m))
    ensures Onward(cfg, s, t, Put(outcome, tree, 0)) ==
            With(s, t, kind, id, PutManifest(VaultOf(s, id), m, outcome),
                 if outcome.Stored? then Verify(m) else Unrecorded)
  {
  }

  lemma VerifyIs(cfg: Config, s: Sys, t: nat, kind: StopKind, id: PackId, m: Manifest)
    requires t in s.workers && s.workers[t] == StopW(kind, id, Verify(m))
    ensures Onward(cfg, s, t, Go) ==
            Goto(s, t, StopW(kind, id, if Verified(VaultOf(s, id), id, m) then Record(m.generation) else Unrecorded))
  {
  }

  lemma WithTwice(s: Sys, t: nat, kind: StopKind, id: PackId, v: Vault, pc: StopPc, v': Vault, pc': StopPc)
    ensures VaultOf(With(s, t, kind, id, v, pc), id) == v
    ensures With(With(s, t, kind, id, v, pc), t, kind, id, v', pc') == With(s, t, kind, id, v', pc')
    ensures Goto(With(s, t, kind, id, v, pc), t, StopW(kind, id, pc')) == With(s, t, kind, id, v, pc')
    ensures With(Goto(s, t, StopW(kind, id, pc)), t, kind, id, v', pc') == With(s, t, kind, id, v', pc')
  {
    var ws := s.workers[t := StopW(kind, id, pc)];
    assert ws[t := StopW(kind, id, pc')] == s.workers[t := StopW(kind, id, pc')];
    assert s.vaults[id := v][id := v'] == s.vaults[id := v'];
  }

  /** However its uploads end, the four steps of a stop leave the vault that Commit leaves, and go on
      to record the generation exactly when Commit succeeds. */
  lemma StepsAreCommit(cfg: Config, s: Sys, t: nat, kind: StopKind, id: PackId, a: Attempt, tree: Forest)
    requires t in s.workers && s.workers[t] == StopW(kind, id, CheckHead(a.expected))
    requires a.source == if id in s.dirs then Some(tree) else None
    ensures var (v, r) := Commit(VaultOf(s, id), id, a);
            CommitSteps(cfg, s, t, a, tree) ==
            if r == Failure(GenerationConflict) then Goto(s, t, StopW(kind, id, Unrecorded))
            else With(s, t, kind, id, v, if r.Success? then Record(a.expected + 1) else Unrecorded)
  {
    CheckIs(cfg, s, t, kind, id, a.expected);
    if HeadGen(VaultOf(s, id), id) == a.expected {
      var s1 := Goto(s, t, StopW(kind, id, Upload(a.expected + 1)));
      UploadIs(cfg, s1, t, kind, id, a, tree);
      UploadsAreCommit(cfg, s, s1, t, kind, id, a, tree);
    }
  }

  /** The attempt from its upload on. */
  lemma UploadsAreCommit(cfg: Config, s: Sys, s1: Sys, t: nat, kind: StopKind, id: PackId, a: Attempt, tree: Forest)
    requires s1 == Goto(s, t, StopW(kind, id, Upload(a.expected + 1)))
    requires a.source == if id in s.dirs then Some(tree) else None
    ensures var (v, r) := AfterCheck(VaultOf(s, id), id, a);
            && r != Failure(GenerationConflict)
            && var s2 := Onward(cfg, s1, t, Put(a.archivePut, tree, a.bytes));
               Onward(cfg, Onward(cfg, s2, t, Put(a.manifestPut, tree, 0)), t, Go)
               == With(s, t, kind, id, v, if r.Success? then Record(a.expected + 1) else Unrecorded)
  {
    UploadIs(cfg, s1, t, kind, id, a, tree);
    var v1 := PutArchive(VaultOf(s, id), a.expected + 1, Uploaded(a).0, Uploaded(a).1);
    WithTwice(s, t, kind, id, v1, Upload(a.expected + 1), v1, Unrecorded);
    if a.source.Some? && a.archivePut.Stored? {
      var m := ManifestOf(id, a.expected + 1, Uploaded(a).0);
      WithTwice(s, t, kind, id, v1, Upload(a.expected + 1), v1, Publish(m));
      PublishesAreCommit(cfg, s, t, kind, id, a, tree, v1, m);
    } else {
      AfterFailedUpload(VaultOf(s, id), id, a);
    }
  }

  lemma PublishesAreCommit(cfg: Config, s: Sys, t: nat, kind: StopKind, id: PackId, a: Attempt, tree: Forest,
                           v1: Vault, m: Manifest)
    requires a.source == Some(tree) && a.archivePut.Stored?
    requires v1 == PutArchive(VaultOf(s, id), a.expected + 1, Uploaded(a).0, Stored)
    requires m == ManifestOf(id, a.expected + 1, Uploaded(a).0)
    ensures var (v, r) := AfterCheck(VaultOf(s, id), id, a);
            && r != Failure(GenerationConflict)
            && Onward(cfg, Onward(cfg, With(s, t, kind, id, v1, Publish(m)), t, Put(a.manifestPut, tree, 0)), t, Go)
               == With(s, t, kind, id, v, if r.Success? then Record(a.expected + 1) else Unrecorded)
  {
    AfterStoredUpload(VaultOf(s, id), id, a, tree);
    var v2 := PutManifest(v1, m, a.manifestPut);
    var s2 := With(s, t, kind, id, v1, Publish(m));
    PublishIs(cfg, s2, t, kind, id, m, a.manifestPut, tree);
    WithTwice(s, t, kind, id, v1, Publish(m), v2, Verify(m));
    WithTwice(s, t, kind, id, v1, Publish(m), v2, Unrecorded);
    if a.manifestPut.Stored? {
      VerifyIs(cfg, With(s, t, kind, id, v2, Verify(m)), t, kind, id, m);
      WithTwice(s, t, kind, id, v2, Verify(m), v2, Record(m.generation));
      WithTwice(s, t, kind, id, v2, Verify(m), v2, Unrecorded);
    }
  }

  // ------------------------------------------------------ runs over a store of keys

  // `k` names the objects of pack `id`, as in the store itself.

  /** The objects named by `k` are the vault `v`. */
  ghost predicate HoldsAs(v: Vault, objects: Store.Objects, id: PackId, k: Naming) {
    Store.Canonical(objects, id, k) && Store.VaultOf(objects, k) == v
  }

  lemma ArchiveHolds(v: Vault, objects: Store.Objects, id: PackId, k: Naming, gen: nat, o: Object, outcome: PutOutcome)
    requires Lawful(k) && HoldsAs(v, objects, id, k) && gen < GENERATIONS
    ensures HoldsAs(PutArchive(v, gen, o, outcome), Store.Stores(objects, k.archive(gen), o, outcome), id, k)
    ensures HasPrefix(k.archive(gen), k.prefix)
  {
    Store.AfterArchivePut(objects, id, k, gen, o, outcome);
  }

  lemma ManifestHolds(v: Vault, objects: Store.Objects, id: PackId, k: Naming, m: Manifest, outcome: PutOutcome)
    requires Lawful(k) && HoldsAs(v, objects, id, k) && m.id == id && m.generation < GENERATIONS
    ensures HoldsAs(PutManifest(v, m, outcome),
                    Store.Stores(objects, k.manifest(m.generation), ManifestObject(m), outcome), id, k)
    ensures HasPrefix(k.manifest(m.generation), k.prefix)
  {
    Store.AfterManifestPut(objects, id, k, m, outcome);
  }

  lemma OtherHolds(v: Vault, objects: Store.Objects, k: Naming, l: Naming, other: PackId,
                   key: string, o: Object, outcome: PutOutcome)
    requires Lawful(l) && Apart(k, l) && HasPrefix(key, k.prefix) && HoldsAs(v, objects, other, l)
    ensures HoldsAs(v, Store.Stores(objects, key, o, outcome), other, l)
  {
    Store.PutTouchesOnePack(objects, k, l, other, key, o, outcome);
  }

  /** One upload of a commit, before it is known under which key it goes. */
  datatype Write =
    | ArchiveWrite(gen: nat, o: Object, outcome: PutOutcome)
    | ManifestWrite(m: Manifest, outcome: PutOutcome)

  /** The upload of a writing step. */
  ghost function WriteOf(s: Sys, w: Worker, c: Choice): Write
    requires w.StopW? && (w.pc.Upload? || w.pc.Publish?) && c.Put?
  {
    if w.pc.Publish? then ManifestWrite(w.pc.m, c.outcome)
    else if w.id in s.dirs then ArchiveWrite(w.pc.gen, ArchiveObject(WriteArchive(c.tree), c.bytes), c.outcome)
    else ArchiveWrite(w.pc.gen, Junk([]), BrokenStream(c.outcome))
  }

  function OnVault(v: Vault, wr: Write): Vault {
    match wr
    case ArchiveWrite(gen, o, outcome) => PutArchive(v, gen, o, outcome)
    case ManifestWrite(m, outcome) => PutManifest(v, m, outcome)
  }

  ghost function KeyOf(k: Naming, wr: Write): string {
    match wr
    case ArchiveWrite(gen, _, _) => k.archive(gen)
    case ManifestWrite(m, _) => k.manifest(m.generation)
  }

  function ObjectOf(wr: Write): Object {
    match wr
    case ArchiveWrite(_, o, _) => o
    case ManifestWrite(m, _) => ManifestObject(m)
  }

  ghost function OnStore(objects: Store.Objects, k: Naming, wr: Write): Store.Objects {
    Store.Stores(objects, KeyOf(k, wr), ObjectOf(wr), wr.outcome)
  }

  lemma WriteVaults(cfg: Config, s: Sys, t: nat, w: Worker, c: Choice)
    requires w.StopW? && (w.pc.Upload? || w.pc.Publish?) && c.Put?
    ensures StopStep(cfg, s, t, w, c).vaults == s.vaults[w.id := OnVault(VaultOf(s, w.id), WriteOf(s, w, c))]
  {
    if w.pc.Upload? {
      UploadVaults(cfg, s, t, w, c);
    } else {
      PublishVaults(cfg, s, t, w, c);
    }
  }

  /** A write for pack `id` whose generation fits its key. */
  predicate WritesFor(wr: Write, id: PackId) {
    match wr
    case ArchiveWrite(gen, _, _) => gen < GENERATIONS
    case ManifestWrite(m, _) => m.id == id && m.generation < GENERATIONS
  }

  lemma OwnWrite(v: Vault, objects: Store.Objects, id: PackId, k: Naming, wr: Write)
    requires WritesFor(wr, id) && Lawful(k) && HoldsAs(v, objects, id, k)
    ensures HoldsAs(OnVault(v, wr), OnStore(objects, k, wr), id, k)
  {
    match wr
    case ArchiveWrite(gen, o, outcome) => ArchiveHolds(v, objects, id, k, gen, o, outcome);
    case ManifestWrite(m, outcome) => ManifestHolds(v, objects, id, k, m, outcome);
  }

  lemma KeyPrefix(k: Naming, wr: Write)
    requires Lawful(k)
    ensures HasPrefix(KeyOf(k, wr), k.prefix)
  {
  }

  lemma OtherWrite(v: Vault, objects: Store.Objects, l: Naming, k: Naming, other: PackId, wr: Write)
    requires Lawful(k) && Lawful(l) && Apart(l, k) && HoldsAs(v, objects, other, k)
    ensures HoldsAs(v, OnStore(objects, l, wr), other, k)
  {
    KeyPrefix(l, wr);
    OtherHolds(v, objects, l, k, other, KeyOf(l, wr), ObjectOf(wr), wr.outcome);
  }

  /** The naming `l` of a writer as seen from the pack named by `k`. */
  ghost predicate Fit(k: Naming, l: Naming, same: bool) {
    Lawful(k) && Lawful(l) && if same then k == l else Apart(l, k)
  }

  lemma AnyWrite(v: Vault, v': Vault, objects: Store.Objects, id: PackId, k: Naming,
                 writer: PackId, l: Naming, wr: Write)
    requires WritesFor(wr, writer) && Fit(k, l, id == writer)
    requires HoldsAs(v, objects, id, k) && v' == if id == writer then OnVault(v, wr) else v
    ensures HoldsAs(v', OnStore(objects, l, wr), id, k)
  {
    if id == writer {
      OwnWrite(v, objects, id, k, wr);
    } else {
      OtherWrite(v, objects, l, k, id, wr);
    }
  }

  /** One upload under the prefix of `l`, or none. */
  ghost predicate OnePut(objects: Store.Objects, objects': Store.Objects, l: Naming) {
    objects' == objects || exists wr :: HasPrefix(KeyOf(l, wr), l.prefix) && objects' == OnStore(objects, l, wr)
  }

  /** The pack for which a step writes. */
  function WriterOf(s: Sys, a: Action): PackId
    requires Writes(s, a)
  {
    s.workers[a.t].id
  }

  ghost function WriteAt(s: Sys, a: Action): Write
    requires Writes(s, a)
  {
    WriteOf(s, s.workers[a.t], a.choice)
  }

  /** The store after a step. */
  ghost function StoreStep(names: PackId -> Naming, s: Sys, a: Action, objects: Store.Objects): Store.Objects {
    if Writes(s, a) then OnStore(objects, names(WriterOf(s, a)), WriteAt(s, a)) else objects
  }

  /** What a step does to the vault of one pack, `v` before and `v'` after. */
  ghost predicate Tracks(s: Sys, a: Action, id: PackId, v: Vault, v': Vault) {
    v' == if Writes(s, a) && id == WriterOf(s, a) then OnVault(v, WriteAt(s, a)) else v
  }

  lemma StepTracks(cfg: Config, s: Sys, a: Action, id: PackId)
    ensures Tracks(s, a, id, VaultOf(s, id), VaultOf(Apply(cfg, s, a), id))
  {
    if Writes(s, a) {
      WriteVaults(cfg, s, a.t, s.workers[a.t], a.choice);
    } else {
      OtherStepsKeepVaults(cfg, s, a);
    }
  }

  lemma TrackedHolds(names: PackId -> Naming, s: Sys, a: Action, objects: Store.Objects,
                     id: PackId, v: Vault, v': Vault)
    requires Tracks(s, a, id, v, v') && HoldsAs(v, objects, id, names(id))
    requires Writes(s, a) ==>
               && WritesFor(WriteAt(s, a), WriterOf(s, a))
               && Fit(names(id), names(WriterOf(s, a)), id == WriterOf(s, a))
    ensures HoldsAs(v', StoreStep(names, s, a, objects), id, names(id))
  {
    if Writes(s, a) {
      AnyWrite(v, v', objects, id, names(id), WriterOf(s, a), names(WriterOf(s, a)), WriteAt(s, a));
    }
  }

  lemma StepPuts(names: PackId -> Naming, s: Sys, a: Action, objects: Store.Objects)
    requires Writes(s, a) && Lawful(names(WriterOf(s, a)))
    ensures OnePut(objects, StoreStep(names, s, a, objects), names(WriterOf(s, a)))
  {
    KeyPrefix(names(WriterOf(s, a)), WriteAt(s, a));
  }

  // ---------------------------------------------------------- plainly named packs

  /** Pack IDs are DNS labels; all that matters here is that they contain no slash. */
  predicate PlainAction(a: Action) {
    match a
    case Login(id) => NoSlash(id)
    case BeginSwitch(target) => NoSlash(target)
    case BeginIdleStop(captured) => NoSlash(captured)
    case _ => true
  }

  ghost predicate PlainWorker(w: Worker) {
    NoSlash(w.id) && (w.StopW? ==> NoSlash(Named(w.kind)))
  }

  ghost predicate Plain(s: Sys) {
    && s.core.disk == s.core.state && NoSlash(s.core.state.active)
    && forall t :: t in s.workers ==> PlainWorker(s.workers[t])
  }

  lemma EmptyIsPlain()
    ensures NoSlash("")
  {
  }

  lemma AdvancePlain(cfg: Config, s: Sys, t: nat, c: Choice)
    requires Plain(s) && t in s.workers
    ensures Plain(Apply(cfg, s, Advance(t, c)))
  {
    EmptyIsPlain();
    var w := s.workers[t];
    if w.StartW? {
      StartHasShape(cfg, s, t, w, c);
    } else {
      StopHasShape(cfg, s, t, w, c);
    }
  }

  lemma StepPlain(cfg: Config, s: Sys, a: Action)
    requires Plain(s) && PlainAction(a)
    ensures Plain(Apply(cfg, s, a))
  {
    match a {
      case Advance(t, c) =>
        if t in s.workers {
          AdvancePlain(cfg, s, t, c);
        }
      case Login(id) => LoginPlain(s, id);
      case BeginSwitch(target) => BeginPlain(s, DrainForSwitch(s.core, target), Switch(target));
      case BeginIdleStop(captured) => BeginPlain(s, DrainWhenIdle(s.core), IdleStop(captured));
      case BeginShutdown => BeginPlain(s, DrainForShutdown(s.core), Shutdown);
      case WriteWorld(_, _) =>
      case Exit(_) =>
      case Observe(_) =>
      case Crash => CrashPlain(s);
    }
  }

  lemma LoginPlain(s: Sys, id: PackId)
    requires Plain(s) && NoSlash(id)
    ensures Plain(LoginStep(s, id))
  {
  }

  lemma BeginPlain(s: Sys, entry: (Core, bool), kind: StopKind)
    requires Plain(s) && NoSlash(Named(kind))
    requires entry.1 ==> entry.0 == Save(s.core, s.core.state.(phase := Draining))
    ensures Plain(BeginStep(s, entry, kind))
  {
    EmptyIsPlain();
  }

  lemma CrashPlain(s: Sys)
    requires Plain(s)
    ensures Plain(CrashStep(s))
  {
  }

  lemma {:induction false} RunPlain(cfg: Config, hyp: Hypotheses, states: seq<Sys>, actions: seq<Action>, i: nat)
    requires Run(cfg, hyp, states, actions) && i < |states|
    requires PlainActions(actions)
    ensures Plain(states[i]) && Publishers(states[i]) && DirsHeld(states[i])
  {
    if i == 0 {
      EmptyIsPlain();
    } else {
      RunPlain(cfg, hyp, states, actions, i - 1);
      assert states[i - 1 + 1] == Apply(cfg, states[i - 1], actions[i - 1]);
      StepPlain(cfg, states[i - 1], actions[i - 1]);
      StepDirsHeld(cfg, hyp, states[i - 1], actions[i - 1]);
      StepPublishers(cfg, states[i - 1], actions[i - 1]);
    }
  }

  /** `os` are the stores that a run fills, from an empty one. */
  ghost predicate Fills(names: PackId -> Naming, states: seq<Sys>, actions: seq<Action>, os: seq<Store.Objects>) {
    && |os| == |states| == |actions| + 1 && os[0] == map[]
    && forall i :: 0 <= i < |actions| ==> os[i + 1] == StoreStep(names, states[i], actions[i], os[i])
  }

  /** Every run fills a store. */
  lemma {:induction false} Filled(names: PackId -> Naming, states: seq<Sys>, actions: seq<Action>)
    returns (os: seq<Store.Objects>)
    requires |states| == |actions| + 1
    ensures Fills(names, states, actions, os)
    decreases |actions|
  {
    if actions == [] {
      os := [map[]];
    } else {
      var n := |actions| - 1;
      var before := Filled(names, states[..n + 1], actions[..n]);
      os := before + [StoreStep(names, states[n], actions[n], before[n])];
      forall i | 0 <= i < |actions|
        ensures os[i + 1] == StoreStep(names, states[i], actions[i], os[i])
      {
        if i < n {
          assert before[i + 1] == StoreStep(names, states[..n + 1][i], actions[..n][i], before[i]);
        }
      }
    }
  }

  /** The generation of every upload fits its key. */
  ghost predicate Bounded(states: seq<Sys>) {
    forall i :: 0 <= i < |states| ==> BoundedUploads(states[i].workers)
  }

  ghost predicate BoundedUploads(workers: map<nat, Worker>) {
    forall t :: t in workers && workers[t].StopW? ==>
                  && (workers[t].pc.Upload? ==> workers[t].pc.gen < GENERATIONS)
                  && (workers[t].pc.Publish? ==> workers[t].pc.m.generation < GENERATIONS)
  }

  predicate PlainActions(actions: seq<Action>) {
    forall i :: 0 <= i < |actions| ==> PlainAction(actions[i])
  }

  /** A lawful naming of every pack's objects, in which packs do not share keys. */
  ghost predicate LawfulNames(names: PackId -> Naming) {
    forall id, other :: NoSlash(id) && NoSlash(other) ==> Fit(names(id), names(other), id == other)
  }

  lemma ProgramNamesLawful()
    ensures LawfulNames(KeysOf)
  {
    forall id, other | NoSlash(id) && NoSlash(other)
      ensures Fit(KeysOf(id), KeysOf(other), id == other)
    {
      KeysLawful(id);
      KeysLawful(other);
      if id != other {
        PacksApart(other, id);
      }
    }
  }

  /** Step `i` of a run as one pack sees it, `vs` being the pack's vaults. */
  ghost predicate TracksAt(names: PackId -> Naming, states: seq<Sys>, actions: seq<Action>, vs: seq<Vault>,
                           id: PackId, i: nat)
    requires i < |actions| < |states| && |vs| == |states|
  {
    && Tracks(states[i], actions[i], id, vs[i], vs[i + 1])
    && (Writes(states[i], actions[i]) ==>
          var writer := WriterOf(states[i], actions[i]);
          WritesFor(WriteAt(states[i], actions[i]), writer) && Fit(names(id), names(writer), id == writer))
  }

  lemma {:induction false} ChainHolds(names: PackId -> Naming, states: seq<Sys>, actions: seq<Action>, vs: seq<Vault>,
                                      os: seq<Store.Objects>, id: PackId, n: nat)
    requires Fills(names, states, actions, os) && n <= |actions| && |vs| == |states| && vs[0] == EMPTY
    requires forall j :: 0 <= j < |actions| ==> TracksAt(names, states, actions, vs, id, j)
    ensures HoldsAs(vs[n], os[n], id, names(id))
    decreases n
  {
    if n == 0 {
      Store.EmptyStore(id, names(id));
    } else {
      var m := n - 1;
      ChainHolds(names, states, actions, vs, os, id, m);
      assert TracksAt(names, states, actions, vs, id, m);
      assert os[m + 1] == StoreStep(names, states[m], actions[m], os[m]);
      TrackedHolds(names, states[m], actions[m], os[m], id, vs[m], vs[n]);
    }
  }

  lemma RunTracked(names: PackId -> Naming, cfg: Config, hyp: Hypotheses, states: seq<Sys>, actions: seq<Action>,
                   i: nat, id: PackId)
    requires LawfulNames(names) && Run(cfg, hyp, states, actions) && i < |actions| && NoSlash(id)
    requires Bounded(states) && PlainActions(actions)
    ensures TracksAt(names, states, actions, VaultsOf(states, id), id, i)
  {
    RunPlain(cfg, hyp, states, actions, i);
    StepTracks(cfg, states[i], actions[i], id);
    assert states[i + 1] == Apply(cfg, states[i], actions[i]);
    if Writes(states[i], actions[i]) {
      WriteFits(states[i], actions[i]);
      assert Fit(names(id), names(WriterOf(states[i], actions[i])), id == WriterOf(states[i], actions[i]));
    }
  }

  lemma WriteFits(s: Sys, a: Action)
    requires Writes(s, a) && Publishers(s) && BoundedUploads(s.workers) && Plain(s)
    ensures WritesFor(WriteAt(s, a), WriterOf(s, a)) && NoSlash(WriterOf(s, a))
  {
    assert Publisher(s.workers[a.t], s.held) && PlainWorker(s.workers[a.t]);
  }

  lemma RunHolds(names: PackId -> Naming, cfg: Config, hyp: Hypotheses, states: seq<Sys>, actions: seq<Action>,
                 os: seq<Store.Objects>, i: nat, id: PackId)
    requires LawfulNames(names) && Run(cfg, hyp, states, actions) && Fills(names, states, actions, os)
    requires Bounded(states) && PlainActions(actions) && i < |states| && NoSlash(id)
    ensures HoldsAs(VaultOf(states[i], id), os[i], id, names(id))
  {
    var vs := VaultsOf(states, id);
    forall j | 0 <= j < |actions|
      ensures TracksAt(names, states, actions, vs, id, j)
    {
      RunTracked(names, cfg, hyp, states, actions, j, id);
    }
    ChainHolds(names, states, actions, vs, os, id, i);
  }

  /** A step makes at most one upload, under a key of the pack whose stop takes the step. */
  ghost predicate OwnPut(names: PackId -> Naming, s: Sys, a: Action, objects: Store.Objects, objects': Store.Objects) {
    if Writes(s, a) then OnePut(objects, objects', names(WriterOf(s, a))) else objects' == objects
  }

  lemma RunPuts(names: PackId -> Naming, cfg: Config, hyp: Hypotheses, states: seq<Sys>, actions: seq<Action>,
                os: seq<Store.Objects>, i: nat)
    requires LawfulNames(names) && Run(cfg, hyp, states, actions) && Fills(names, states, actions, os)
    requires i < |actions| && PlainActions(actions)
    ensures OwnPut(names, states[i], actions[i], os[i], os[i + 1])
  {
    if Writes(states[i], actions[i]) {
      RunPlain(cfg, hyp, states, actions, i);
      var writer := WriterOf(states[i], actions[i]);
      assert PlainWorker(states[i].workers[actions[i].t]);
      assert Fit(names(writer), names(writer), writer == writer);
      StepPuts(names, states[i], actions[i], os[i]);
    }
  }

  /** Under the timing assumptions it is the active pack that writes. */
  lemma WriterIsActive(cfg: Config, hyp: Hypotheses, states: seq<Sys>, actions: seq<Action>, i: nat)
    requires Timely(hyp) && Run(cfg, hyp, states, actions) && i < |actions| && Writes(states[i], actions[i])
    ensures WriterOf(states[i], actions[i]) == states[i].core.state.active
  {
    RunInv(cfg, hyp, states, actions, i);
    SoleIs(states[i].workers, actions[i].t);
  }

  /** Every lifecycle run, whatever its timing, is a run over one store of string keys: there are stores
      that it fills, from an empty one; every step makes at most one upload, under a key of the pack
      that it backs up; and at every moment the keys of every pack hold exactly its vault in the step
      machine. What holds of the vaults holds of the store. */
  lemma RunOnStore(cfg: Config, hyp: Hypotheses, states: seq<Sys>, actions: seq<Action>)
    returns (os: seq<Store.Objects>)
    requires Run(cfg, hyp, states, actions) && Bounded(states) && PlainActions(actions)
    ensures Fills(KeysOf, states, actions, os)
    ensures forall i, id :: 0 <= i < |states| && NoSlash(id) ==> HoldsAs(VaultOf(states[i], id), os[i], id, KeysOf(id))
    ensures forall i :: 0 <= i < |actions| ==> OwnPut(KeysOf, states[i], actions[i], os[i], os[i + 1])
    ensures forall i :: 0 <= i < |actions| && Timely(hyp) && Writes(states[i], actions[i]) ==>
              WriterOf(states[i], actions[i]) == states[i].core.state.active
  {
    ProgramNamesLawful();
    os := Filled(KeysOf, states, actions);
    forall i, id | 0 <= i < |states| && NoSlash(id)
      ensures HoldsAs(VaultOf(states[i], id), os[i], id, KeysOf(id))
    {
      RunHolds(KeysOf, cfg, hyp, states, actions, os, i, id);
    }
    forall i | 0 <= i < |actions|
      ensures OwnPut(KeysOf, states[i], actions[i], os[i], os[i + 1])
    {
      RunPuts(KeysOf, cfg, hyp, states, actions, os, i);
    }
    forall i | 0 <= i < |actions| && Timely(hyp) && Writes(states[i], actions[i])
      ensures WriterOf(states[i], actions[i]) == states[i].core.state.active
    {
      WriterIsActive(cfg, hyp, states, actions, i);
    }
  }

  /** Scanning the keys finds generation `head`, or none when that is 0. */
  ghost predicate ScanFinds(objects: Store.Objects, id: PackId, k: Naming, head: nat) {
    var found := Store.HeadOf(objects, id, k);
    if head == 0 then found == None else found.Some? && found.value.generation == head
  }

  lemma ScanFindsHead(objects: Store.Objects, id: PackId, k: Naming)
    requires Lawful(k) && Store.Canonical(objects, id, k)
    ensures ScanFinds(objects, id, k, HeadGen(Store.VaultOf(objects, k), id))
  {
    Store.HeadRefines(objects, id, k);
  }

  /** In every state of every run, what Head finds by scanning the keys of the stores it fills is the
      head that the lifecycle results speak of. */
  lemma RunHead(cfg: Config, hyp: Hypotheses, states: seq<Sys>, actions: seq<Action>)
    returns (os: seq<Store.Objects>)
    requires Run(cfg, hyp, states, actions) && Bounded(states) && PlainActions(actions)
    ensures Fills(KeysOf, states, actions, os)
    ensures forall i, id :: 0 <= i < |states| && NoSlash(id) ==> ScanFinds(os[i], id, KeysOf(id), Head(states[i], id))
  {
    os := RunOnStore(cfg, hyp, states, actions);
    forall i, id | 0 <= i < |states| && NoSlash(id)
      ensures ScanFinds(os[i], id, KeysOf(id), Head(states[i], id))
    {
      KeysLawful(id);
      ScanFindsHead(os[i], id, KeysOf(id));
    }
  }
}
