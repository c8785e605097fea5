/** What holds of every run without any assumption: pack directories are always real trees, and no
    upload step ever waits for one. */
module LifecycleWorlds {
  import opened Wrappers
  import opened Paths
  import opened Sections
  import opened Archive
  import opened RoundTrip
  import opened Generations
  import opened Lifecycle
  import opened LifecycleInvariant
  import opened LifecycleControl
  import opened LifecycleSteps
  import opened LifecycleTheorems

  // ------------------------------------------------------------ the shape of a step

  /** No goroutine but `t` moves. */
  ghost predicate OnlyMoves(s: Sys, s': Sys, t: nat) {
    || s'.workers == s.workers
    || s'.workers == s.workers - {t}
    || (t in s'.workers && s'.workers == s.workers[t := s'.workers[t]])
  }

  /** What every step of a start leaves alone. */
  ghost predicate StartShape(s: Sys, s': Sys, t: nat, w: Worker)
    requires w.StartW?
  {
    && s'.vaults == s.vaults && OnlyMoves(s, s', t)
    && (!w.spc.Fetching? && !w.spc.Launch? ==> SameDisk(s, s'))
    && (s.core.disk == s.core.state ==> s'.core.disk == s'.core.state)
    && s'.core.state.active in {s.core.state.active, w.id}
    && (t in s'.workers ==> s'.workers[t].StartW? && s'.workers[t].id == w.id)
    && (!w.spc.Prepare? ==> s'.core.state.pending == s.core.state.pending)
    && (!w.spc.Prepare? ==> s'.core.state.generation == s.core.state.generation)
    && (!w.spc.Polling? && !s.core.state.phase.Ready? ==> !s'.core.state.phase.Ready?)
    && (s'.core.expectedStop ==> s.core.expectedStop)
    && (t in s'.workers && s'.workers[t].spc.Polling? ==> w.spc.Polling? || !s'.core.expectedStop)
  }

  /** A step of a stop that begins or goes on with the upload of its manifest. */
  predicate PublishFollows(s: Sys, w: Worker, w': Worker)
    requires w.StopW? && w'.StopW?
  {
    w'.pc.Publish? ==> w' == w || (w.pc.Upload? && w.id in s.dirs && w'.id == w.id == w'.pc.m.id)
  }

  /** What every step of a stop leaves alone. */
  ghost predicate StopShape(s: Sys, s': Sys, t: nat, w: Worker)
    requires w.StopW?
  {
    && OnlyMoves(s, s', t)
    && (ControlOnly(w.pc) || w.pc.Finish? ==> SameDisk(s, s'))
    && (s.core.disk == s.core.state ==> s'.core.disk == s'.core.state)
    && s'.core.state.active in {s.core.state.active, "", Named(w.kind)}
    && (t in s'.workers ==>
          if s'.workers[t].StartW? then w.kind.Switch? && s'.workers[t] == StartW(w.kind.target, false, Entered)
          else
            && s'.workers[t].kind == w.kind && s'.workers[t].id in {w.id, s.core.state.active}
            && PublishFollows(s, w, s'.workers[t]))
    && (!w.pc.Record? && !w.pc.Unrecorded? && !w.pc.Finish? ==> s'.core.state.pending == s.core.state.pending)
    && (!w.pc.Record? && !w.pc.Finish? ==> s'.core.state.generation == s.core.state.generation)
    && (!s.core.state.phase.Ready? ==> !s'.core.state.phase.Ready?)
  }

  /** The pack that a stop was begun for, if any. */
  function Named(kind: StopKind): PackId {
    match kind
    case Switch(target) => target
    case IdleStop(captured) => captured
    case Shutdown => ""
  }

  lemma StartFailsShape(s: Sys, t: nat, w: Worker)
    requires w.StartW?
    ensures StartShape(s, FailAndStop(s, t, w.id), t, w)
  {
  }

  lemma StartGoesShape(s: Sys, t: nat, w: Worker, spc: StartPc)
    requires w.StartW? && !spc.Polling?
    ensures StartShape(s, Goto(s, t, w.(spc := spc)), t, w)
  {
  }

  lemma StartLaysShape(s: Sys, t: nat, w: Worker, fs: Fs)
    requires w.StartW? && w.spc.Fetching?
    ensures StartShape(s, Goto(SetDir(s, w.id, fs), t, w.(spc := Prepare(true, w.spc.gen, false))), t, w)
  {
  }

  lemma RegisteredShape(s: Sys, t: nat, w: Worker)
    requires w.StartW? && w.spc.Registering?
    ensures var pid := w.spc.pid;
            var s' := s.(core := s.core.(process := Some(pid), expectedStop := false), waiters := s.waiters + {pid});
            StartShape(s, Goto(s', t, w.(spc := Polling(pid))), t, w)
  {
  }

  lemma UnregisteredShape(s: Sys, t: nat, w: Worker)
    requires w.StartW? && w.spc.Registering?
    ensures StartShape(s, Done(Kill(s, w.spc.pid), t), t, w)
  {
  }

  lemma StartShowsShape(s: Sys, t: nat, w: Worker, phase: Phase, spc: StartPc)
    requires w.StartW? && phase != Ready && !spc.Polling?
    ensures StartShape(s, Goto(s.(core := Save(s.core, s.core.state.(phase := phase))), t, w.(spc := spc)), t, w)
    ensures !w.spc.Prepare? ==> StartShape(s, Done(s, t), t, w)
  {
  }

  lemma EnteredShape(cfg: Config, s: Sys, t: nat, w: Worker, c: Choice)
    requires t in s.workers && s.workers[t] == w && w.StartW? && w.spc.Entered?
    ensures StartShape(s, StartStep(cfg, s, t, w, c), t, w)
  {
    StartFailsShape(s, t, w);
    StartShowsShape(s, t, w, Resizing, Sizing);
  }

  lemma SizingShape(cfg: Config, s: Sys, t: nat, w: Worker, c: Choice)
    requires t in s.workers && s.workers[t] == w && w.StartW? && w.spc.Sizing?
    ensures StartShape(s, StartStep(cfg, s, t, w, c), t, w)
  {
    StartFailsShape(s, t, w);
    StartShowsShape(s, t, w, if w.recovery then Recovering else Loading, Probe);
    SizingIs(cfg, s, t, w, c);
  }

  lemma SizingIs(cfg: Config, s: Sys, t: nat, w: Worker, c: Choice)
    requires w.StartW? && w.spc.Sizing?
    ensures var phase := if w.recovery then Recovering else Loading;
            StartStep(cfg, s, t, w, c) in
            {FailAndStop(s, t, w.id), Done(s, t),
             Goto(s.(core := Save(s.core, s.core.state.(phase := phase))), t, w.(spc := Probe))}
  {
  }

  lemma ProbeShape(cfg: Config, s: Sys, t: nat, w: Worker, c: Choice)
    requires t in s.workers && s.workers[t] == w && w.StartW? && w.spc.Probe?
    ensures StartShape(s, StartStep(cfg, s, t, w, c), t, w)
  {
    ProbeStep(cfg, s, t, w, c);
    StartFailsShape(s, t, w);
    StartGoesShape(s, t, w, Probed(s, w.id, c));
  }

  lemma FetchingShape(cfg: Config, s: Sys, t: nat, w: Worker, c: Choice)
    requires t in s.workers && s.workers[t] == w && w.StartW? && w.spc.Fetching?
    ensures StartShape(s, StartStep(cfg, s, t, w, c), t, w)
  {
    StartFailsShape(s, t, w);
    var s' := StartStep(cfg, s, t, w, c);
    if t in s'.workers {
      StartLaysShape(s, t, w, s'.dirs[w.id]);
    }
  }

  lemma PrepareShape(cfg: Config, s: Sys, t: nat, w: Worker, c: Choice)
    requires t in s.workers && s.workers[t] == w && w.StartW? && w.spc.Prepare?
    ensures StartShape(s, StartStep(cfg, s, t, w, c), t, w)
  {
  }

  lemma LaunchShape(cfg: Config, s: Sys, t: nat, w: Worker, c: Choice)
    requires t in s.workers && s.workers[t] == w && w.StartW? && w.spc.Launch?
    ensures StartShape(s, StartStep(cfg, s, t, w, c), t, w)
  {
  }

  lemma RegisteringShape(cfg: Config, s: Sys, t: nat, w: Worker, c: Choice)
    requires t in s.workers && s.workers[t] == w && w.StartW? && w.spc.Registering?
    ensures StartShape(s, StartStep(cfg, s, t, w, c), t, w)
  {
    RegisteredShape(s, t, w);
    UnregisteredShape(s, t, w);
  }

  lemma PollingShape(cfg: Config, s: Sys, t: nat, w: Worker, c: Choice)
    requires t in s.workers && s.workers[t] == w && w.StartW? && w.spc.Polling?
    ensures StartShape(s, StartStep(cfg, s, t, w, c), t, w)
  {
  }

  lemma DrainedShape(cfg: Config, s: Sys, t: nat, w: Worker, c: Choice)
    requires t in s.workers && s.workers[t] == w && w.StopW? && w.pc.Drained?
    ensures StopShape(s, StopStep(cfg, s, t, w, c), t, w)
  {
  }

  lemma SaveAllShape(cfg: Config, s: Sys, t: nat, w: Worker, c: Choice)
    requires t in s.workers && s.workers[t] == w && w.StopW? && w.pc.SaveAll?
    ensures StopShape(s, StopStep(cfg, s, t, w, c), t, w)
  {
  }

  lemma StopCommandShape(cfg: Config, s: Sys, t: nat, w: Worker, c: Choice)
    requires t in s.workers && s.workers[t] == w && w.StopW? && w.pc.StopCommand?
    ensures StopShape(s, StopStep(cfg, s, t, w, c), t, w)
  {
  }

  lemma AwaitShape(cfg: Config, s: Sys, t: nat, w: Worker, c: Choice)
    requires t in s.workers && s.workers[t] == w && w.StopW? && w.pc.Await?
    ensures StopShape(s, StopStep(cfg, s, t, w, c), t, w)
  {
  }

  lemma ReadGenerationShape(cfg: Config, s: Sys, t: nat, w: Worker, c: Choice)
    requires t in s.workers && s.workers[t] == w && w.StopW? && w.pc.ReadGeneration?
    ensures StopShape(s, StopStep(cfg, s, t, w, c), t, w)
  {
  }

  lemma CheckHeadShape(cfg: Config, s: Sys, t: nat, w: Worker, c: Choice)
    requires t in s.workers && s.workers[t] == w && w.StopW? && w.pc.CheckHead?
    ensures StopShape(s, StopStep(cfg, s, t, w, c), t, w)
  {
  }

  lemma UploadShape(cfg: Config, s: Sys, t: nat, w: Worker, c: Choice)
    requires t in s.workers && s.workers[t] == w && w.StopW? && w.pc.Upload?
    ensures StopShape(s, StopStep(cfg, s, t, w, c), t, w)
  {
  }

  lemma PublishShape(cfg: Config, s: Sys, t: nat, w: Worker, c: Choice)
    requires t in s.workers && s.workers[t] == w && w.StopW? && w.pc.Publish?
    ensures StopShape(s, StopStep(cfg, s, t, w, c), t, w)
  {
  }

  lemma VerifyShape(cfg: Config, s: Sys, t: nat, w: Worker, c: Choice)
    requires t in s.workers && s.workers[t] == w && w.StopW? && w.pc.Verify?
    ensures StopShape(s, StopStep(cfg, s, t, w, c), t, w)
  {
  }

  lemma RecordShape(cfg: Config, s: Sys, t: nat, w: Worker, c: Choice)
    requires t in s.workers && s.workers[t] == w && w.StopW? && w.pc.Record?
    ensures StopShape(s, StopStep(cfg, s, t, w, c), t, w)
  {
  }

  lemma UnrecordedShape(cfg: Config, s: Sys, t: nat, w: Worker, c: Choice)
    requires t in s.workers && s.workers[t] == w && w.StopW? && w.pc.Unrecorded?
    ensures StopShape(s, StopStep(cfg, s, t, w, c), t, w)
  {
  }

  lemma EvictShape(cfg: Config, s: Sys, t: nat, w: Worker, c: Choice)
    requires t in s.workers && s.workers[t] == w && w.StopW? && w.pc.Evict?
    ensures StopShape(s, StopStep(cfg, s, t, w, c), t, w)
  {
  }

  lemma FinishShape(cfg: Config, s: Sys, t: nat, w: Worker, c: Choice)
    requires t in s.workers && s.workers[t] == w && w.StopW? && w.pc.Finish?
    ensures StopShape(s, StopStep(cfg, s, t, w, c), t, w)
  {
    match w.kind {
      case Switch(_) => SwitchShape(cfg, s, t, w, c);
      case IdleStop(_) => IdleShape(cfg, s, t, w, c);
      case Shutdown => IdleShape(cfg, s, t, w, c);
    }
  }

  lemma SwitchShape(cfg: Config, s: Sys, t: nat, w: Worker, c: Choice)
    requires t in s.workers && s.workers[t] == w && w.StopW? && w.pc.Finish? && w.kind.Switch?
    ensures StopShape(s, StopStep(cfg, s, t, w, c), t, w)
  {
  }

  lemma IdleShape(cfg: Config, s: Sys, t: nat, w: Worker, c: Choice)
    requires t in s.workers && s.workers[t] == w && w.StopW? && w.pc.Finish? && !w.kind.Switch?
    ensures StopShape(s, StopStep(cfg, s, t, w, c), t, w)
  {
    IdleIs(cfg, s, t, w, c);
    DoneShape(s, t, w, s.core);
    DoneShape(s, t, w, Save(s.core, IDLE));
  }

  lemma IdleIs(cfg: Config, s: Sys, t: nat, w: Worker, c: Choice)
    requires w.StopW? && w.pc.Finish? && !w.kind.Switch?
    ensures StopStep(cfg, s, t, w, c) in {Done(s.(core := s.core), t), Done(s.(core := Save(s.core, IDLE)), t)}
  {
    assert s.(core := s.core) == s;
  }

  lemma DoneShape(s: Sys, t: nat, w: Worker, core: Core)
    requires w.StopW? && (core == s.core || (w.pc.Finish? && core == Save(s.core, IDLE)))
    ensures StopShape(s, Done(s.(core := core), t), t, w)
  {
  }

  lemma FailingShape(cfg: Config, s: Sys, t: nat, w: Worker, c: Choice)
    requires t in s.workers && s.workers[t] == w && w.StopW? && w.pc.Failing?
    ensures StopShape(s, StopStep(cfg, s, t, w, c), t, w)
  {
    DoneShape(s, t, w, s.core);
    assert s.(core := s.core) == s;
    StopFailsShape(s, t, w, s.core.state.active);
    StopFailsShape(s, t, w, Named(w.kind));
  }

  lemma StopFailsShape(s: Sys, t: nat, w: Worker, id: PackId)
    requires w.StopW? && id in {s.core.state.active, Named(w.kind)}
    ensures StopShape(s, FailAndStop(s, t, id), t, w)
  {
  }

  lemma StartHasShape(cfg: Config, s: Sys, t: nat, w: Worker, c: Choice)
    requires t in s.workers && s.workers[t] == w && w.StartW?
    ensures StartShape(s, StartStep(cfg, s, t, w, c), t, w)
  {
    match w.spc {
      case Entered => EnteredShape(cfg, s, t, w, c);
      case Sizing => SizingShape(cfg, s, t, w, c);
      case Probe => ProbeShape(cfg, s, t, w, c);
      case Fetching(_) => FetchingShape(cfg, s, t, w, c);
      case Prepare(_, _, _) => PrepareShape(cfg, s, t, w, c);
      case Launch => LaunchShape(cfg, s, t, w, c);
      case Registering(_) => RegisteringShape(cfg, s, t, w, c);
      case Polling(_) => PollingShape(cfg, s, t, w, c);
    }
  }

  lemma StopHasShape(cfg: Config, s: Sys, t: nat, w: Worker, c: Choice)
    requires t in s.workers && s.workers[t] == w && w.StopW?
    ensures StopShape(s, StopStep(cfg, s, t, w, c), t, w)
  {
    match w.pc {
      case Drained => DrainedShape(cfg, s, t, w, c);
      case SaveAll(_) => SaveAllShape(cfg, s, t, w, c);
      case StopCommand(_) => StopCommandShape(cfg, s, t, w, c);
      case Await(_) => AwaitShape(cfg, s, t, w, c);
      case ReadGeneration => ReadGenerationShape(cfg, s, t, w, c);
      case CheckHead(_) => CheckHeadShape(cfg, s, t, w, c);
      case Upload(_) => UploadShape(cfg, s, t, w, c);
      case Publish(_) => PublishShape(cfg, s, t, w, c);
      case Verify(_) => VerifyShape(cfg, s, t, w, c);
      case Record(_) => RecordShape(cfg, s, t, w, c);
      case Unrecorded => UnrecordedShape(cfg, s, t, w, c);
      case Evict => EvictShape(cfg, s, t, w, c);
      case Finish => FinishShape(cfg, s, t, w, c);
      case Failing => FailingShape(cfg, s, t, w, c);
    }
  }

  /** The directory of pack `id` becomes `fs`. */
  ghost predicate Lays(s: Sys, s': Sys, id: PackId, fs: Fs) {
    s'.dirs == s.dirs[id := fs] && s'.held == s.held[id := fs] && s'.vaults == s.vaults
  }

  /** A restore changes nothing, or lays what some stored archive of the pack replays to. */
  lemma FetchingLays(cfg: Config, s: Sys, t: nat, w: Worker, c: Choice)
    requires w.StartW? && w.spc.Fetching?
    ensures var s' := StartStep(cfg, s, t, w, c);
            SameDisk(s, s') ||
            var n := Seen(VaultOf(s, w.id), w.id, c);
            && n in VaultOf(s, w.id).archives && VaultOf(s, w.id).archives[n].ArchiveObject?
            && var r := Replay(cfg.tmp, map[], VaultOf(s, w.id).archives[n].entries);
               r.Success? && Lays(s, s', w.id, r.value)
  {
  }

  lemma LaunchLays(cfg: Config, s: Sys, t: nat, w: Worker, c: Choice)
    requires w.StartW? && w.spc.Launch?
    ensures var s' := StartStep(cfg, s, t, w, c);
            SameDisk(s, s') || ((c.Edited? || c.FaultEdited?) && Lays(s, s', w.id, c.fs))
  {
  }

  /** A stop touches no directory but the one it evicts. */
  lemma StopDirs(cfg: Config, s: Sys, t: nat, w: Worker, c: Choice)
    requires t in s.workers && s.workers[t] == w && w.StopW?
    ensures StopStep(cfg, s, t, w, c).held == s.held
    ensures StopStep(cfg, s, t, w, c).dirs == DirsAfter(s, w, c)
  {
    if ControlOnly(w.pc) || w.pc.Finish? {
      StopHasShape(cfg, s, t, w, c);
    } else {
      StorageDirs(cfg, s, t, w, c);
    }
  }

  /** The steps that write to the store. */
  predicate Writes(s: Sys, a: Action) {
    && a.Advance? && a.choice.Put? && a.t in s.workers && s.workers[a.t].StopW?
    && (s.workers[a.t].pc.Upload? || s.workers[a.t].pc.Publish?)
  }

  lemma OtherStepsKeepVaults(cfg: Config, s: Sys, a: Action)
    requires !Writes(s, a)
    ensures Apply(cfg, s, a).vaults == s.vaults
  {
    match a {
      case Advance(t, c) =>
        if t in s.workers {
          AdvanceKeepsVaults(cfg, s, t, s.workers[t], c);
        }
      case WriteWorld(_, _) =>
      case _ => OthersKeepDisk(cfg, s, a);
    }
  }

  lemma AdvanceKeepsVaults(cfg: Config, s: Sys, t: nat, w: Worker, c: Choice)
    requires t in s.workers && s.workers[t] == w && (!c.Put? || w.StartW? || !(w.pc.Upload? || w.pc.Publish?))
    ensures w.StartW? ==> StartStep(cfg, s, t, w, c).vaults == s.vaults
    ensures w.StopW? ==> StopStep(cfg, s, t, w, c).vaults == s.vaults
  {
    if w.StartW? {
      StartHasShape(cfg, s, t, w, c);
    } else if ControlOnly(w.pc) {
      StopHasShape(cfg, s, t, w, c);
    } else {
      StorageVaults(cfg, s, t, w, c);
    }
  }

  // --------------------------------------------------------------------- real trees

  /** The object is no archive, or the archive of a real tree. */
  ghost predicate OfTree(o: Object) {
    o.ArchiveObject? ==> exists f :: WellFormed(f) && o.entries == WriteArchive(f)
  }

  ghost predicate Trees(s: Sys) {
    forall id :: id in s.dirs ==> id in s.held && IsDirectory(s.dirs[id])
  }

  ghost predicate ArchivesOfTrees(s: Sys) {
    forall id, n :: n in VaultOf(s, id).archives ==> OfTree(VaultOf(s, id).archives[n])
  }

  lemma KeptIsDirectory(f: Forest)
    requires WellFormed(f)
    ensures IsDirectory(Kept(Flat([], f)))
  {
    KeptIsTree(f);
    assert WellFormed(Pruned(f)) && Flat([], Pruned(f)) == Kept(Flat([], f));
  }

  /** The archive of a real tree replays to a real tree. */
  lemma ReplaysToTree(o: Object, tmp: string, rooted: bool, st: Path, ups: nat)
    requires o.ArchiveObject? && OfTree(o) && Staging(tmp, rooted, st, ups)
    ensures Replay(tmp, map[], o.entries).Success? ==> IsDirectory(Replay(tmp, map[], o.entries).value)
  {
    var f :| WellFormed(f) && o.entries == WriteArchive(f);
    ArchiveRoundTrip(tmp, rooted, st, ups, f);
    KeptIsDirectory(f);
  }

  lemma LaidTrees(s: Sys, s': Sys, id: PackId, fs: Fs)
    requires Trees(s) && Lays(s, s', id, fs) && IsDirectory(fs)
    ensures Trees(s')
  {
  }

  lemma StartTrees(cfg: Config, s: Sys, t: nat, w: Worker, c: Choice, rooted: bool, st: Path, ups: nat)
    requires t in s.workers && s.workers[t] == w && w.StartW? && (c.Edited? || c.FaultEdited? ==> IsDirectory(c.fs))
    requires Trees(s) && ArchivesOfTrees(s) && Staging(cfg.tmp, rooted, st, ups)
    ensures Trees(StartStep(cfg, s, t, w, c))
  {
    var s' := StartStep(cfg, s, t, w, c);
    if w.spc.Fetching? {
      FetchingLays(cfg, s, t, w, c);
      if !SameDisk(s, s') {
        var o := VaultOf(s, w.id).archives[Seen(VaultOf(s, w.id), w.id, c)];
        ReplaysToTree(o, cfg.tmp, rooted, st, ups);
        LaidTrees(s, s', w.id, Replay(cfg.tmp, map[], o.entries).value);
      }
    } else if w.spc.Launch? {
      LaunchLays(cfg, s, t, w, c);
      if !SameDisk(s, s') {
        LaidTrees(s, s', w.id, c.fs);
      }
    } else {
      StartHasShape(cfg, s, t, w, c);
    }
  }

  lemma StepTrees(cfg: Config, hyp: Hypotheses, s: Sys, a: Action, rooted: bool, st: Path, ups: nat)
    requires Enabled(hyp, s, a) && Trees(s) && ArchivesOfTrees(s) && Staging(cfg.tmp, rooted, st, ups)
    ensures Trees(Apply(cfg, s, a))
  {
    match a {
      case Advance(t, c) =>
        if s.workers[t].StartW? {
          StartTrees(cfg, s, t, s.workers[t], c, rooted, st, ups);
        } else {
          StopDirs(cfg, s, t, s.workers[t], c);
        }
      case WriteWorld(pid, fs) =>
      case _ => OthersKeepDisk(cfg, s, a);
    }
  }

  /** What an upload can leave of the archives. */
  lemma PutOfTrees(archives: map<nat, Object>, gen: nat, o: Object, outcome: PutOutcome)
    requires forall n :: n in archives ==> OfTree(archives[n])
    requires OfTree(o)
    ensures var after := After(archives, gen, o, outcome);
            forall n :: n in after ==> OfTree(after[n])
  {
  }

  lemma UploadedArchives(s: Sys, s': Sys, id: PackId, gen: nat, o: Object, outcome: PutOutcome)
    requires ArchivesOfTrees(s) && OfTree(o)
    requires s'.vaults == s.vaults[id := PutArchive(VaultOf(s, id), gen, o, outcome)]
    ensures ArchivesOfTrees(s')
  {
    PutOfTrees(VaultOf(s, id).archives, gen, o, outcome);
    forall other, n | n in VaultOf(s', other).archives
      ensures OfTree(VaultOf(s', other).archives[n])
    {
      if other != id {
        assert n in VaultOf(s, other).archives;
      }
    }
  }

  lemma SameArchives(s: Sys, s': Sys)
    requires ArchivesOfTrees(s) && forall id :: VaultOf(s', id).archives == VaultOf(s, id).archives
    ensures ArchivesOfTrees(s')
  {
    forall id, n | n in VaultOf(s', id).archives
      ensures OfTree(VaultOf(s', id).archives[n])
    {
      assert n in VaultOf(s, id).archives;
    }
  }

  lemma StepArchives(cfg: Config, hyp: Hypotheses, s: Sys, a: Action)
    requires Enabled(hyp, s, a) && ArchivesOfTrees(s)
    ensures ArchivesOfTrees(Apply(cfg, s, a))
  {
    if Writes(s, a) {
      var w, c, s' := s.workers[a.t], a.choice, Apply(cfg, s, a);
      if w.pc.Upload? {
        UploadVaults(cfg, s, a.t, w, c);
        if w.id in s.dirs {
          assert WellFormed(c.tree);
          UploadedArchives(s, s', w.id, w.pc.gen, ArchiveObject(WriteArchive(c.tree), c.bytes), c.outcome);
        } else {
          UploadedArchives(s, s', w.id, w.pc.gen, Junk([]), BrokenStream(c.outcome));
        }
      } else {
        PublishVaults(cfg, s, a.t, w, c);
        SameArchives(s, s');
      }
    } else {
      OtherStepsKeepVaults(cfg, s, a);
      SameArchives(s, Apply(cfg, s, a));
    }
  }

  // ----------------------------------------------------------- backups are of worlds

  /** A stop about to upload a manifest does so for its own pack, which has held a world. */
  ghost predicate Publisher(w: Worker, held: map<PackId, Fs>) {
    w.StopW? && w.pc.Publish? ==> w.pc.m.id == w.id && w.id in held
  }

  ghost predicate Publishers(s: Sys) {
    forall t :: t in s.workers ==> Publisher(s.workers[t], s.held)
  }

  /** A pack with a stored manifest has held a world. */
  ghost predicate ManifestsHeld(s: Sys) {
    forall id :: VaultOf(s, id).manifests != map[] ==> id in s.held
  }

  /** A pack with a backup has held a world. */
  ghost predicate BackupsAreHeld(s: Sys) {
    forall id :: Head(s, id) > 0 ==> id in s.held
  }

  /** What is on the disk has been held. */
  ghost predicate DirsHeld(s: Sys) {
    s.dirs.Keys <= s.held.Keys
  }

  lemma AdvanceHeld(cfg: Config, s: Sys, t: nat, c: Choice)
    requires t in s.workers
    ensures s.held.Keys <= Apply(cfg, s, Advance(t, c)).held.Keys
    ensures DirsHeld(s) && (c.Partly? ==> s.workers[t].id in s.dirs) ==> DirsHeld(Apply(cfg, s, Advance(t, c)))
  {
    var w := s.workers[t];
    if w.StopW? {
      StopDirs(cfg, s, t, w, c);
    } else if w.spc.Fetching? {
      FetchingLays(cfg, s, t, w, c);
    } else if w.spc.Launch? {
      LaunchLays(cfg, s, t, w, c);
    } else {
      StartHasShape(cfg, s, t, w, c);
    }
  }

  lemma StepDirsHeld(cfg: Config, hyp: Hypotheses, s: Sys, a: Action)
    requires Enabled(hyp, s, a) && DirsHeld(s)
    ensures DirsHeld(Apply(cfg, s, a))
  {
    match a {
      case Advance(t, c) => AdvanceHeld(cfg, s, t, c);
      case WriteWorld(_, _) =>
      case _ => OthersKeepDisk(cfg, s, a);
    }
  }

  lemma HeldGrows(cfg: Config, s: Sys, a: Action)
    ensures s.held.Keys <= Apply(cfg, s, a).held.Keys
  {
    match a {
      case Advance(t, c) =>
        if t in s.workers {
          AdvanceHeld(cfg, s, t, c);
        }
      case WriteWorld(_, _) =>
      case _ => OthersKeepDisk(cfg, s, a);
    }
  }

  /** A goroutine that begins is no publisher. */
  lemma OthersKeepPublishers(cfg: Config, s: Sys, a: Action)
    requires Publishers(s) && !a.Advance? && s.held.Keys <= Apply(cfg, s, a).held.Keys
    ensures Publishers(Apply(cfg, s, a))
  {
  }

  lemma StepPublishers(cfg: Config, s: Sys, a: Action)
    requires Publishers(s) && DirsHeld(s)
    ensures Publishers(Apply(cfg, s, a))
  {
    HeldGrows(cfg, s, a);
    match a {
      case Advance(t, c) =>
        if t in s.workers {
          AdvancePublishers(cfg, s, t, s.workers[t], c);
        }
      case _ => OthersKeepPublishers(cfg, s, a);
    }
  }

  lemma AdvancePublishers(cfg: Config, s: Sys, t: nat, w: Worker, c: Choice)
    requires Publishers(s) && DirsHeld(s) && t in s.workers && s.workers[t] == w
    requires s.held.Keys <= Apply(cfg, s, Advance(t, c)).held.Keys
    ensures Publishers(Apply(cfg, s, Advance(t, c)))
  {
    if w.StartW? {
      StartHasShape(cfg, s, t, w, c);
    } else {
      StopHasShape(cfg, s, t, w, c);
    }
  }

  lemma StepManifests(cfg: Config, s: Sys, a: Action)
    requires Publishers(s) && ManifestsHeld(s)
    ensures ManifestsHeld(Apply(cfg, s, a))
  {
    HeldGrows(cfg, s, a);
    if Writes(s, a) {
      if s.workers[a.t].pc.Upload? {
        UploadVaults(cfg, s, a.t, s.workers[a.t], a.choice);
      } else {
        PublishVaults(cfg, s, a.t, s.workers[a.t], a.choice);
      }
      WrittenManifests(s, Apply(cfg, s, a), s.workers[a.t]);
    } else {
      OtherStepsKeepVaults(cfg, s, a);
      WrittenManifests(s, Apply(cfg, s, a), StartW("", false, Entered));
    }
  }

  lemma WrittenManifests(s: Sys, s': Sys, w: Worker)
    requires ManifestsHeld(s) && s.held.Keys <= s'.held.Keys
    requires forall id :: VaultOf(s', id).manifests == VaultOf(s, id).manifests || (id == w.id && w.id in s.held)
    ensures ManifestsHeld(s')
  {
    forall id | VaultOf(s', id).manifests != map[]
      ensures id in s'.held
    {
      assert VaultOf(s, id).manifests != map[] || id == w.id;
    }
  }

  lemma HeldBackups(s: Sys)
    requires ManifestsHeld(s)
    ensures BackupsAreHeld(s)
  {
    forall id | Head(s, id) > 0
      ensures id in s.held
    {
      HeadIsGreatest(VaultOf(s, id), id);
      assert Head(s, id) in VaultOf(s, id).manifests;
    }
  }

  // -------------------------------------------------------------------- whole runs

  lemma {:induction false} RunGrounded(cfg: Config, hyp: Hypotheses, states: seq<Sys>, actions: seq<Action>, i: nat,
                                       rooted: bool, st: Path, ups: nat)
    requires Run(cfg, hyp, states, actions) && i < |states| && Staging(cfg.tmp, rooted, st, ups)
    ensures Trees(states[i]) && ArchivesOfTrees(states[i])
    ensures Publishers(states[i]) && ManifestsHeld(states[i])
  {
    if i == 0 {
    } else {
      RunGrounded(cfg, hyp, states, actions, i - 1, rooted, st, ups);
      assert states[i - 1 + 1] == Apply(cfg, states[i - 1], actions[i - 1]);
      StepTrees(cfg, hyp, states[i - 1], actions[i - 1], rooted, st, ups);
      StepArchives(cfg, hyp, states[i - 1], actions[i - 1]);
      assert DirsHeld(states[i - 1]);
      StepPublishers(cfg, states[i - 1], actions[i - 1]);
      StepManifests(cfg, states[i - 1], actions[i - 1]);
    }
  }

  /** In every reachable state, whatever the timing and whatever Head overlooks, each pack directory
      is the content of a well-formed tree, each stored archive is the archive of one, and every pack
      with a backup has held a world. */
  lemma RunTrees(cfg: Config, hyp: Hypotheses, states: seq<Sys>, actions: seq<Action>, i: nat,
                 rooted: bool, st: Path, ups: nat)
    requires Run(cfg, hyp, states, actions) && i < |states| && Staging(cfg.tmp, rooted, st, ups)
    ensures Trees(states[i]) && ArchivesOfTrees(states[i]) && BackupsAreHeld(states[i])
  {
    RunGrounded(cfg, hyp, states, actions, i, rooted, st, ups);
    HeldBackups(states[i]);
  }

  /** Every directory is the world it held last. */
  ghost predicate AllWhole(s: Sys) {
    forall id :: id in s.dirs ==> HoldsWhole(s, id)
  }

  /** An eviction is cut short. */
  predicate Interrupts(a: Action) {
    a.Advance? && a.choice.Partly?
  }

  lemma StepWhole(cfg: Config, s: Sys, a: Action)
    requires AllWhole(s) && !Interrupts(a)
    ensures AllWhole(Apply(cfg, s, a))
  {
    match a {
      case Advance(t, c) =>
        if t in s.workers {
          AdvanceWhole(cfg, s, t, c);
        }
      case WriteWorld(_, _) =>
      case _ => OthersKeepDisk(cfg, s, a);
    }
  }

  lemma AdvanceWhole(cfg: Config, s: Sys, t: nat, c: Choice)
    requires AllWhole(s) && t in s.workers && !c.Partly?
    ensures AllWhole(Apply(cfg, s, Advance(t, c)))
  {
    var w := s.workers[t];
    if w.StopW? {
      StopDirs(cfg, s, t, w, c);
    } else if w.spc.Fetching? {
      FetchingLays(cfg, s, t, w, c);
    } else if w.spc.Launch? {
      LaunchLays(cfg, s, t, w, c);
    } else {
      StartHasShape(cfg, s, t, w, c);
    }
  }

  /** Only an eviction that is cut short leaves a directory that is not the world it held last. */
  lemma {:induction false} WholeUnlessInterrupted(cfg: Config, hyp: Hypotheses, states: seq<Sys>, actions: seq<Action>,
                                                  i: nat)
    requires Run(cfg, hyp, states, actions) && i < |states|
    requires forall k :: 0 <= k < i ==> !Interrupts(actions[k])
    ensures AllWhole(states[i])
  {
    if i == 0 {
    } else {
      WholeUnlessInterrupted(cfg, hyp, states, actions, i - 1);
      assert states[i - 1 + 1] == Apply(cfg, states[i - 1], actions[i - 1]);
      StepWhole(cfg, states[i - 1], actions[i - 1]);
    }
  }

  /** What the step machine leaves to chance, under all the assumptions: any goroutine may meet success,
      trouble, a resize or its deadline, any read of the store may fail, a child may edit its world in
      any way, exit, and be seen to have exited, an eviction may stop anywhere, and the machine may
      stop at any moment. */
  lemma StepsOffered(s: Sys, t: nat, pid: nat, fs: Fs)
    ensures Enabled(ASSUMED, s, Crash)
    ensures t in s.workers ==>
              forall c :: c in {Go, Fault, Expired, Resized} ==> Enabled(ASSUMED, s, Advance(t, c))
    ensures t in s.workers && Reads(s.workers[t]) ==> Enabled(ASSUMED, s, Advance(t, Unreadable))
    ensures t in s.workers && IsDirectory(fs) ==>
              Enabled(ASSUMED, s, Advance(t, Edited(fs))) && Enabled(ASSUMED, s, Advance(t, FaultEdited(fs)))
    ensures (&& t in s.workers && s.workers[t].StopW? && s.workers[t].pc.Evict? && s.workers[t].id in s.dirs
             && Remains(s.dirs[s.workers[t].id], fs)) ==> Enabled(ASSUMED, s, Advance(t, Partly(fs)))
    ensures pid in s.live && IsDirectory(fs) ==> Enabled(ASSUMED, s, WriteWorld(pid, fs))
    ensures pid in s.live ==> Enabled(ASSUMED, s, Exit(pid))
    ensures pid in s.waiters && pid !in s.live ==> Enabled(ASSUMED, s, Observe(pid))
    ensures forall target :: target != "" ==> Enabled(ASSUMED, s, BeginSwitch(target))
    ensures forall id :: id != "" && (s.workers == map[] || !Ensure(s.core, id).1.Retried?) ==>
              Enabled(ASSUMED, s, Login(id))
    ensures s.core.state.active != "" ==> Enabled(ASSUMED, s, BeginIdleStop(s.core.state.active))
    ensures s.workers == map[] ==> Enabled(ASSUMED, s, BeginShutdown)
  {
  }

  /** What a running child writes is the content of its pack's directory from then on, and the world that
      the pack held last; no other pack and nothing in the manager or the store changes. */
  lemma ChildWrites(cfg: Config, s: Sys, pid: nat, fs: Fs)
    requires pid in s.live
    ensures Apply(cfg, s, WriteWorld(pid, fs)) ==
            s.(dirs := s.dirs[s.live[pid] := fs], held := s.held[s.live[pid] := fs])
  {
  }

  /** Where the store is read. */
  lemma ReadsExactly(w: Worker)
    ensures Reads(w) <==>
            if w.StartW? then w.spc.Probe? || w.spc.Fetching? else w.pc.CheckHead? || w.pc.Verify?
  {
  }

  /** A stop that has come to its upload can always take it, with any ending. */
  lemma UploadNeverBlocked(cfg: Config, hyp: Hypotheses, states: seq<Sys>, actions: seq<Action>, i: nat, t: nat,
                           outcome: PutOutcome, bytes: nat, rooted: bool, st: Path, ups: nat)
    requires Run(cfg, hyp, states, actions) && i < |states| && Staging(cfg.tmp, rooted, st, ups)
    requires t in states[i].workers && Uploads(states[i].workers[t])
    ensures exists tree :: Enabled(hyp, states[i], Advance(t, Put(outcome, tree, bytes)))
  {
    RunTrees(cfg, hyp, states, actions, i, rooted, st, ups);
    var s := states[i];
    var id := s.workers[t].id;
    if id in s.dirs {
      var f :| WellFormed(f) && Flat([], f) == s.dirs[id];
      assert Enabled(hyp, s, Advance(t, Put(outcome, f, bytes)));
    } else {
      assert Enabled(hyp, s, Advance(t, Put(outcome, Nil, bytes)));
    }
  }
}
