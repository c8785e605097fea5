/** Every step of the lifecycle keeps the whole invariant. */
module LifecycleSteps {
  import opened Wrappers
  import opened Sections
  import opened Archive
  import opened Generations
  import opened Lifecycle
  import opened LifecycleInvariant
  import opened LifecycleControl

  // ---------------------------------------------------------------------- data

  lemma SetDirData(s: Sys, id: PackId, fs: Fs)
    requires Data(s)
    ensures Data(SetDir(s, id, fs))
    ensures forall other :: Head(SetDir(s, id, fs), other) == Head(s, other)
  {
    var s' := SetDir(s, id, fs);
    forall other | other in s'.held && !HoldsWhole(s', other) ensures BackedUp(s', other) {
      assert !HoldsWhole(s, other) && BackedUp(s, other);
    }
  }

  /** Replacing one pack's vault by one that preserves its complete generations and its head. */
  lemma VaultData(s: Sys, id: PackId, v: Vault)
    requires Data(s) && Sound(v, id) && GapFree(v, id)
    requires Preserves(VaultOf(s, id), v, id) && HeadGen(v, id) == Head(s, id)
    ensures Data(s.(vaults := s.vaults[id := v]))
    ensures forall other :: Head(s.(vaults := s.vaults[id := v]), other) == Head(s, other)
  {
    var s' := s.(vaults := s.vaults[id := v]);
    forall other | BackedUp(s, other) ensures BackedUp(s', other) {
      var f :| WellFormed(f) && Flat([], f) == s.held[other] &&
               CommitsTree(VaultOf(s, other), other, f, Head(s, other));
      assert CommitsTree(VaultOf(s', other), other, f, Head(s', other));
    }
    WorldsMoved(s, s');
  }

  /** Worlds stay safe when the disk stays and no backup is lost. */
  lemma WorldsMoved(s: Sys, s': Sys)
    requires WorldsOk(s) && s'.dirs == s.dirs && s'.held == s.held
    requires forall id :: BackedUp(s, id) ==> BackedUp(s', id)
    ensures WorldsOk(s')
  {
    forall id | id in s'.held && !HoldsWhole(s', id) ensures BackedUp(s', id) {
      assert !HoldsWhole(s, id);
    }
  }

  /** Publishing the archive of a directory makes its content the head of its backups. */
  lemma PublishData(s: Sys, id: PackId, m: Manifest, outcome: PutOutcome)
    requires Data(s) && ReadyToPublish(s, id, m, Head(s, id)) && HoldsWhole(s, id)
    ensures var s' := s.(vaults := s.vaults[id := PutManifest(VaultOf(s, id), m, outcome)]);
            && Data(s')
            && Head(s', id) == (if Lands(outcome) then m.generation else Head(s, id))
            && (Lands(outcome) ==> BackedUp(s', id))
  {
    var v := VaultOf(s, id);
    var v' := PutManifest(v, m, outcome);
    var s' := s.(vaults := s.vaults[id := v']);
    VaultSound(s, id);
    ManifestPutDecides(v, id, m, outcome);
    if Lands(outcome) {
      PublishedBackup(s, s', id, m);
      OneMoreBackup(s, s', id);
    } else {
      VaultData(s, id, v');
    }
  }

  lemma PublishedBackup(s: Sys, s': Sys, id: PackId, m: Manifest)
    requires ReadyToPublish(s, id, m, Head(s, id)) && HoldsWhole(s, id)
    requires s'.held == s.held && VaultOf(s', id).archives == VaultOf(s, id).archives
    requires Head(s', id) == m.generation
    ensures BackedUp(s', id)
  {
    HeadIsGreatest(VaultOf(s', id), id);
    var v := VaultOf(s, id);
    var f :| WellFormed(f) && Flat([], f) == s.dirs[id]
             && v.archives[m.generation].ArchiveObject?
             && v.archives[m.generation].entries == WriteArchive(f);
    assert CommitsTree(VaultOf(s', id), id, f, m.generation);
  }

  lemma OneMoreBackup(s: Sys, s': Sys, id: PackId)
    requires WorldsOk(s) && s'.dirs == s.dirs && s'.held == s.held && BackedUp(s', id)
    requires forall other :: other != id ==> VaultOf(s', other) == VaultOf(s, other)
    ensures WorldsOk(s')
  {
    forall other | BackedUp(s, other) ensures BackedUp(s', other) {
      assert other == id || VaultOf(s', other) == VaultOf(s, other);
    }
    WorldsMoved(s, s');
  }

  lemma EvictData(s: Sys, id: PackId)
    requires Data(s) && BackedUp(s, id)
    ensures Data(s.(dirs := s.dirs - {id}))
    ensures forall other :: Head(s.(dirs := s.dirs - {id}), other) == Head(s, other)
  {
    var s' := s.(dirs := s.dirs - {id});
    VaultsFrame(s, s');
    OneLessWhole(s, s', id);
  }

  /** An eviction that has got only so far. */
  lemma PartlyData(s: Sys, id: PackId, part: Fs)
    requires Data(s) && BackedUp(s, id) && id in s.dirs && Remains(s.dirs[id], part)
    ensures Data(s.(dirs := s.dirs[id := part]))
    ensures forall other :: Head(s.(dirs := s.dirs[id := part]), other) == Head(s, other)
  {
    var s' := s.(dirs := s.dirs[id := part]);
    VaultsFrame(s, s');
    PartlyDirs(s, id, part);
    OneLessWhole(s, s', id);
  }

  lemma PartlyDirs(s: Sys, id: PackId, part: Fs)
    requires DirsOk(s) && id in s.dirs && Remains(s.dirs[id], part)
    ensures DirsOk(s.(dirs := s.dirs[id := part]))
  {
    RemainsOfRemains(s.held[id], s.dirs[id], part);
  }

  /** Only a world that its backups hold stops being whole on the disk. */
  lemma OneLessWhole(s: Sys, s': Sys, id: PackId)
    requires HeldOk(s) && s'.vaults == s.vaults && s'.held == s.held && BackedUp(s, id)
    requires forall other :: other != id && HoldsWhole(s, other) ==> HoldsWhole(s', other)
    ensures HeldOk(s')
  {
    forall other | other in s'.held && !HoldsWhole(s', other) ensures BackedUp(s', other) {
      assert other == id || !HoldsWhole(s, other);
      assert BackedUp(s, other);
    }
  }

  lemma RemainsOfRemains(whole: Fs, part: Fs, less: Fs)
    requires (part == whole || Remains(whole, part)) && Remains(part, less)
    ensures Remains(whole, less)
  {
  }

  lemma OneDirectoryData(s: Sys, s': Sys, id: PackId, honest: bool)
    requires (honest ==> Data(s)) && OneDirectory(s, s', id)
    ensures (honest ==> Data(s')) && ActiveHead(s', honest) == ActiveHead(s, honest)
  {
    if honest && !SameStorage(s, s') {
      var mid := SetDir(s, id, s'.dirs[id]);
      SetDirData(s, id, s'.dirs[id]);
      DataFrame(mid, s');
    } else {
      SameData(s, s', honest);
    }
  }

  lemma SameData(s: Sys, s': Sys, honest: bool)
    requires honest ==> Data(s) && SameDisk(s, s')
    ensures honest ==> Data(s')
    ensures s'.core.state.active == s.core.state.active ==> ActiveHead(s', honest) == ActiveHead(s, honest)
  {
    if honest {
      DataFrame(s, s');
    }
  }

  // -------------------------------------------------------------- one step each

  lemma Concludes(cfg: Config, s: Sys, t: nat, honest: bool)
    requires Afterwards(cfg, s, t, ActiveHead(s, honest)) && (honest ==> Data(s))
    ensures Inv(cfg, s, honest)
  {
    if t in s.workers {
      assert s.workers == map[t := s.workers[t]];
      LeavesOne(cfg, s, t, s.workers[t], honest);
    } else {
      assert s.workers == map[];
    }
  }

  lemma StartKeeps(cfg: Config, hyp: Hypotheses, s: Sys, t: nat, c: Choice)
    requires Takes(cfg, hyp, s, Advance(t, c)) && s.workers[t].StartW?
    ensures Inv(cfg, Apply(cfg, s, Advance(t, c)), hyp.honestHead)
  {
    SoleIs(s.workers, t);
    var w := s.workers[t];
    var h := ActiveHead(s, hyp.honestHead);
    var s' := StartStep(cfg, s, t, w, c);
    assert Beforehand(cfg, s, t, w, h);
    match w.spc {
      case Entered => EnteredControl(cfg, s, t, w, c, h);
      case Sizing => SizingControl(cfg, s, t, w, c, h);
      case Probe => ProbeControl(cfg, s, t, w, c, h);
      case Fetching(_) => FetchingControl(cfg, s, t, w, c, h);
      case Prepare(_, _, _) => PrepareControl(cfg, s, t, w, c, h);
      case Launch => LaunchControl(cfg, s, t, w, c, h);
      case Registering(_) => RegisteringControl(cfg, s, t, w, c, h);
      case Polling(_) => PollingControl(cfg, s, t, w, c, h);
    }
    OneDirectoryData(s, s', w.id, hyp.honestHead);
    Concludes(cfg, s', t, hyp.honestHead);
  }

  /** Steps of a stop that change nothing but the manager's own fields. */
  predicate ControlOnly(pc: StopPc) {
    !pc.Upload? && !pc.Publish? && !pc.Evict? && !pc.Finish?
  }

  lemma StopKeepsControlOnly(cfg: Config, hyp: Hypotheses, s: Sys, t: nat, c: Choice)
    requires Takes(cfg, hyp, s, Advance(t, c)) && s.workers[t].StopW? && ControlOnly(s.workers[t].pc)
    ensures Inv(cfg, Apply(cfg, s, Advance(t, c)), hyp.honestHead)
  {
    SoleIs(s.workers, t);
    var w := s.workers[t];
    var h := ActiveHead(s, hyp.honestHead);
    assert Beforehand(cfg, s, t, w, h);
    match w.pc {
      case Drained => DrainedControl(cfg, s, t, w, c, h);
      case SaveAll(_) => SaveAllControl(cfg, s, t, w, c, h);
      case StopCommand(_) => StopCommandControl(cfg, s, t, w, c, h);
      case Await(_) => AwaitControl(cfg, s, t, w, c, h);
      case ReadGeneration => ReadGenerationControl(cfg, s, t, w, c, h);
      case CheckHead(_) => CheckHeadControl(cfg, s, t, w, c, h);
      case Verify(_) => VerifyControl(cfg, s, t, w, c, h);
      case Record(_) => RecordControl(cfg, s, t, w, c, h);
      case Unrecorded => UnrecordedControl(cfg, s, t, w, c, h);
      case Failing => FailingControl(cfg, s, t, w, c, h);
    }
    var s' := StopStep(cfg, s, t, w, c);
    SameData(s, s', hyp.honestHead);
    Concludes(cfg, s', t, hyp.honestHead);
  }

  lemma UploadKeeps(cfg: Config, hyp: Hypotheses, s: Sys, t: nat, c: Choice)
    requires Takes(cfg, hyp, s, Advance(t, c)) && s.workers[t].StopW? && s.workers[t].pc.Upload?
    ensures Inv(cfg, Apply(cfg, s, Advance(t, c)), hyp.honestHead)
  {
    SoleIs(s.workers, t);
    var w := s.workers[t];
    var s' := StopStep(cfg, s, t, w, c);
    assert Beforehand(cfg, s, t, w, ActiveHead(s, hyp.honestHead));
    if c.Put? {
      UploadControl(cfg, hyp, s, t, w, c, ActiveHead(s, hyp.honestHead));
      if hyp.honestHead {
        UploadData(s, w, c, s'.vaults[w.id]);
        DataFrame(s.(vaults := s'.vaults), s');
      }
      Concludes(cfg, s', t, hyp.honestHead);
    }
  }

  lemma UploadData(s: Sys, w: Worker, c: Choice, v': Vault)
    requires Data(s) && w.StopW? && w.pc.Upload? && w.pc.gen == Head(s, w.id) + 1 && c.Put?
    requires exists o, out :: v' == PutArchive(VaultOf(s, w.id), w.pc.gen, o, out)
    ensures Data(s.(vaults := s.vaults[w.id := v']))
    ensures forall other :: Head(s.(vaults := s.vaults[w.id := v']), other) == Head(s, other)
  {
    var v := VaultOf(s, w.id);
    VaultSound(s, w.id);
    var o, out :| v' == PutArchive(v, w.pc.gen, o, out);
    ArchivePutHarmless(v, w.id, o, out);
    VaultData(s, w.id, v');
  }

  lemma PublishMoves(cfg: Config, s: Sys, t: nat, w: Worker, c: Choice)
    requires w.StopW? && w.pc.Publish? && c.Put?
    requires var mid := s.(vaults := s.vaults[w.id := PutManifest(VaultOf(s, w.id), w.pc.m, c.outcome)]);
             Data(mid)
    ensures var mid := s.(vaults := s.vaults[w.id := PutManifest(VaultOf(s, w.id), w.pc.m, c.outcome)]);
            var s' := StopStep(cfg, s, t, w, c);
            Data(s') && (BackedUp(mid, w.id) ==> BackedUp(s', w.id)) && forall id :: Head(s', id) == Head(mid, id)
  {
    DataFrame(s.(vaults := s.vaults[w.id := PutManifest(VaultOf(s, w.id), w.pc.m, c.outcome)]),
              StopStep(cfg, s, t, w, c));
  }

  /** The data after the manifest upload of a stop. */
  lemma PublishedData(cfg: Config, s: Sys, t: nat, w: Worker, c: Choice)
    requires Data(s) && w.StopW? && w.pc.Publish? && c.Put?
    requires ReadyToPublish(s, w.id, w.pc.m, Head(s, w.id)) && HoldsWhole(s, w.id)
    ensures var s' := StopStep(cfg, s, t, w, c);
            && Data(s') && (Lands(c.outcome) ==> BackedUp(s', w.id))
            && Head(s', w.id) == (if Lands(c.outcome) then Head(s, w.id) + 1 else Head(s, w.id))
  {
    PublishData(s, w.id, w.pc.m, c.outcome);
    PublishMoves(cfg, s, t, w, c);
  }

  lemma PublishKeeps(cfg: Config, hyp: Hypotheses, s: Sys, t: nat, c: Choice)
    requires Takes(cfg, hyp, s, Advance(t, c)) && s.workers[t].StopW? && s.workers[t].pc.Publish?
    ensures Inv(cfg, Apply(cfg, s, Advance(t, c)), hyp.honestHead)
  {
    SoleIs(s.workers, t);
    var w := s.workers[t];
    assert Beforehand(cfg, s, t, w, ActiveHead(s, hyp.honestHead));
    if c.Put? {
      PublishedHead(cfg, s, t, w, c, hyp.honestHead);
      PublishControl(cfg, s, t, w, c, ActiveHead(s, hyp.honestHead));
      Concludes(cfg, StopStep(cfg, s, t, w, c), t, hyp.honestHead);
    }
  }

  /** The head that is relied on after the manifest upload of a stop. */
  lemma PublishedHead(cfg: Config, s: Sys, t: nat, w: Worker, c: Choice, honest: bool)
    requires w.StopW? && w.pc.Publish? && c.Put? && w.id == s.core.state.active
    requires honest ==> Data(s) && ReadyToPublish(s, w.id, w.pc.m, Head(s, w.id)) && HoldsWhole(s, w.id)
    ensures var s' := StopStep(cfg, s, t, w, c);
            && (honest ==> Data(s') && (Lands(c.outcome) ==> BackedUp(s', w.id)))
            && ActiveHead(s', honest) == if Lands(c.outcome) then Next(ActiveHead(s, honest)) else ActiveHead(s, honest)
  {
    PublishKeepsCore(cfg, s, t, w, c);
    if honest {
      PublishedData(cfg, s, t, w, c);
    }
    HeadMoves(s, StopStep(cfg, s, t, w, c), Lands(c.outcome), honest);
  }

  lemma PublishKeepsCore(cfg: Config, s: Sys, t: nat, w: Worker, c: Choice)
    requires w.StopW? && w.pc.Publish?
    ensures StopStep(cfg, s, t, w, c).core == s.core
  {
  }

  lemma HeadMoves(s: Sys, s': Sys, up: bool, honest: bool)
    requires s'.core == s.core
    requires honest ==>
               Head(s', s.core.state.active) == Head(s, s.core.state.active) + if up then 1 else 0
    ensures ActiveHead(s', honest) == if up then Next(ActiveHead(s, honest)) else ActiveHead(s, honest)
  {
  }

  lemma EvictKeeps(cfg: Config, hyp: Hypotheses, s: Sys, t: nat, c: Choice)
    requires Takes(cfg, hyp, s, Advance(t, c)) && s.workers[t].StopW? && s.workers[t].pc.Evict?
    ensures Inv(cfg, Apply(cfg, s, Advance(t, c)), hyp.honestHead)
  {
    SoleIs(s.workers, t);
    var w := s.workers[t];
    var s' := StopStep(cfg, s, t, w, c);
    assert Beforehand(cfg, s, t, w, ActiveHead(s, hyp.honestHead));
    EvictControl(cfg, s, t, w, c, ActiveHead(s, hyp.honestHead));
    if hyp.honestHead {
      EvictedData(cfg, s, t, w, c);
    }
    Concludes(cfg, s', t, hyp.honestHead);
  }

  /** The data after a step of an eviction. */
  lemma EvictedData(cfg: Config, s: Sys, t: nat, w: Worker, c: Choice)
    requires Data(s) && w.StopW? && w.pc.Evict? && BackedUp(s, w.id)
    requires c.Partly? ==> w.id in s.dirs && Remains(s.dirs[w.id], c.fs)
    ensures var s' := StopStep(cfg, s, t, w, c);
            Data(s') && Head(s', s'.core.state.active) == Head(s, s.core.state.active)
  {
    var s' := StopStep(cfg, s, t, w, c);
    if c.Fault? {
      DataFrame(s, s');
    } else if c.Partly? {
      PartlyData(s, w.id, c.fs);
    } else {
      EvictData(s, w.id);
      DataFrame(s.(dirs := s.dirs - {w.id}), s');
    }
  }

  lemma FinishKeeps(cfg: Config, hyp: Hypotheses, s: Sys, t: nat, c: Choice)
    requires Takes(cfg, hyp, s, Advance(t, c)) && s.workers[t].StopW? && s.workers[t].pc.Finish?
    ensures Inv(cfg, Apply(cfg, s, Advance(t, c)), hyp.honestHead)
  {
    SoleIs(s.workers, t);
    var w := s.workers[t];
    var s' := StopStep(cfg, s, t, w, c);
    assert Beforehand(cfg, s, t, w, ActiveHead(s, hyp.honestHead));
    FinishControl(cfg, s, t, w, c, ActiveHead(s, hyp.honestHead), ActiveHead(s', hyp.honestHead));
    SameData(s, s', hyp.honestHead);
    Concludes(cfg, s', t, hyp.honestHead);
  }

  lemma LoginKeeps(cfg: Config, hyp: Hypotheses, s: Sys, id: PackId)
    requires Takes(cfg, hyp, s, Login(id))
    ensures Inv(cfg, Apply(cfg, s, Login(id)), hyp.honestHead)
  {
    var s' := LoginStep(s, id);
    var (core, outcome) := Ensure(s.core, id);
    if outcome.Started? || outcome.Retried? {
      assert s.workers == map[];
      SameData(s, s', hyp.honestHead);
      LoginControl(cfg, s, id, ActiveHead(s, hyp.honestHead), ActiveHead(s', hyp.honestHead));
      Concludes(cfg, s', s.next, hyp.honestHead);
    }
  }

  lemma BeginKeeps(cfg: Config, hyp: Hypotheses, s: Sys, a: Action)
    requires Takes(cfg, hyp, s, a) && (a.BeginSwitch? || a.BeginIdleStop? || a.BeginShutdown?)
    ensures Inv(cfg, Apply(cfg, s, a), hyp.honestHead)
  {
    var s' := Apply(cfg, s, a);
    if s.workers == map[] {
      BeginControl(cfg, hyp, s, a, ActiveHead(s, hyp.honestHead));
      SameData(s, s', hyp.honestHead);
      Concludes(cfg, s', s.next, hyp.honestHead);
    } else {
      assert s' == s;
    }
  }

  lemma WriteKeeps(cfg: Config, hyp: Hypotheses, s: Sys, pid: nat, fs: Fs)
    requires Takes(cfg, hyp, s, WriteWorld(pid, fs))
    ensures Inv(cfg, Apply(cfg, s, WriteWorld(pid, fs)), hyp.honestHead)
  {
    WriteControl(cfg, s, WriteWorld(pid, fs), Sole(s.workers), ActiveHead(s, hyp.honestHead));
    if hyp.honestHead {
      SetDirData(s, s.live[pid], fs);
    }
  }

  lemma ExitKeeps(cfg: Config, hyp: Hypotheses, s: Sys, pid: nat)
    requires Takes(cfg, hyp, s, Exit(pid))
    ensures Inv(cfg, Apply(cfg, s, Exit(pid)), hyp.honestHead)
  {
    ExitControl(cfg, s, pid, Sole(s.workers), ActiveHead(s, hyp.honestHead));
    SameData(s, Apply(cfg, s, Exit(pid)), hyp.honestHead);
  }

  lemma ObserveKeeps(cfg: Config, hyp: Hypotheses, s: Sys, pid: nat)
    requires Takes(cfg, hyp, s, Observe(pid))
    ensures Inv(cfg, Apply(cfg, s, Observe(pid)), hyp.honestHead)
  {
    var w, h := Sole(s.workers), ActiveHead(s, hyp.honestHead);
    if s.core.process == Some(pid) {
      ObserveControl(cfg, s, pid, w, h);
    } else {
      StaleObserveControl(cfg, s, pid, w, h);
    }
    SameData(s, Apply(cfg, s, Observe(pid)), hyp.honestHead);
  }

  lemma CrashKeeps(cfg: Config, s: Sys, honest: bool)
    requires Inv(cfg, s, honest)
    ensures Inv(cfg, Apply(cfg, s, Crash), honest)
  {
    var s' := CrashStep(s);
    CrashControl(cfg, s, Sole(s.workers), ActiveHead(s, honest));
    SameData(s, s', honest);
    Concludes(cfg, s', s.next, honest);
  }

  lemma AdvanceKeeps(cfg: Config, hyp: Hypotheses, s: Sys, t: nat, c: Choice)
    requires Takes(cfg, hyp, s, Advance(t, c))
    ensures Inv(cfg, Apply(cfg, s, Advance(t, c)), hyp.honestHead)
  {
    var w := s.workers[t];
    if w.StartW? {
      StartKeeps(cfg, hyp, s, t, c);
    } else if ControlOnly(w.pc) {
      StopKeepsControlOnly(cfg, hyp, s, t, c);
    } else if w.pc.Upload? {
      UploadKeeps(cfg, hyp, s, t, c);
    } else if w.pc.Publish? {
      PublishKeeps(cfg, hyp, s, t, c);
    } else if w.pc.Evict? {
      EvictKeeps(cfg, hyp, s, t, c);
    } else {
      FinishKeeps(cfg, hyp, s, t, c);
    }
  }

  /** The invariant is inductive. */
  lemma StepKeeps(cfg: Config, hyp: Hypotheses, s: Sys, a: Action)
    requires Takes(cfg, hyp, s, a)
    ensures Inv(cfg, Apply(cfg, s, a), hyp.honestHead)
  {
    match a
    case Login(id) => LoginKeeps(cfg, hyp, s, id);
    case BeginSwitch(_) => BeginKeeps(cfg, hyp, s, a);
    case BeginIdleStop(_) => BeginKeeps(cfg, hyp, s, a);
    case BeginShutdown => BeginKeeps(cfg, hyp, s, a);
    case Advance(t, c) => AdvanceKeeps(cfg, hyp, s, t, c);
    case WriteWorld(pid, fs) => WriteKeeps(cfg, hyp, s, pid, fs);
    case Exit(pid) => ExitKeeps(cfg, hyp, s, pid);
    case Observe(pid) => ObserveKeeps(cfg, hyp, s, pid);
    case Crash => CrashKeeps(cfg, s, hyp.honestHead);
  }

  lemma StartInv(cfg: Config, honest: bool)
    ensures Inv(cfg, START, honest)
  {
    EmptySound("");
  }
}
