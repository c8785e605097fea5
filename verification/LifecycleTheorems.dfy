/** What holds over every run of the lifecycle under the timing assumptions, and what holds of its
    backups when Head is honest besides: any
    interleaving of logins, switches, idle stops, shutdowns, child exits, failed or torn
    uploads, failing reads, and machine crashes between any two steps. */
module LifecycleTheorems {
  import opened Wrappers
  import opened Paths
  import opened Sections
  import opened Archive
  import opened RoundTrip
  import opened Generations
  import opened Lifecycle
  import opened LifecycleInvariant
  import opened LifecycleControl
  import opened LifecycleSteps

  lemma {:induction false} RunInv(cfg: Config, hyp: Hypotheses, states: seq<Sys>, actions: seq<Action>, i: nat)
    requires Timely(hyp) && Run(cfg, hyp, states, actions) && i < |states|
    ensures Inv(cfg, states[i], hyp.honestHead)
  {
    if i == 0 {
      StartInv(cfg, hyp.honestHead);
    } else {
      RunInv(cfg, hyp, states, actions, i - 1);
      StepKeeps(cfg, hyp, states[i - 1], actions[i - 1]);
      assert states[i - 1 + 1] == Apply(cfg, states[i - 1], actions[i - 1]);
    }
  }

  // ----------------------------------------------------------------- singleton

  /** At most one Minecraft child is live, it runs the active pack, and a live child that is not
      registered belongs to the only goroutine in flight, a start about to register it. */
  lemma Singleton(cfg: Config, hyp: Hypotheses, states: seq<Sys>, actions: seq<Action>, i: nat)
    requires Timely(hyp) && Run(cfg, hyp, states, actions) && i < |states|
    ensures forall p, q :: p in states[i].live && q in states[i].live ==> p == q
    ensures forall p :: p in states[i].live ==> states[i].live[p] == states[i].core.state.active != ""
    ensures forall p :: p in states[i].live && states[i].core.process != Some(p) ==>
              exists t :: t in states[i].workers && states[i].workers.Keys == {t}
                          && states[i].workers[t].StartW? && states[i].workers[t].spc == Registering(p)
  {
    RunInv(cfg, hyp, states, actions, i);
    var s := states[i];
    forall p | p in s.live && s.core.process != Some(p)
      ensures exists t :: t in s.workers && s.workers.Keys == {t}
                          && s.workers[t].StartW? && s.workers[t].spc == Registering(p)
    {
      OwnerOfUnregistered(cfg, s, hyp.honestHead, p);
    }
  }

  lemma OwnerOfUnregistered(cfg: Config, s: Sys, honest: bool, p: nat)
    requires Inv(cfg, s, honest) && p in s.live && s.core.process != Some(p)
    ensures exists t :: t in s.workers && s.workers.Keys == {t}
                        && s.workers[t].StartW? && s.workers[t].spc == Registering(p)
    ensures s.core.process.None?
  {
    var t :| t in s.workers;
    SoleIs(s.workers, t);
    assert s.workers.Keys == {t};
  }

  // ---------------------------------------------------------------- durability

  /** No world is ever lost. In every reachable state, with or without eviction and after a
      crash at any step, a pack that has held a world still has it whole on the disk, or the head
      of its backups restores to exactly what a backup keeps of it, unless that holds a symbolic
      link. A directory that is not whole is what an unfinished eviction has left, and a pending
      backup implies that the directory is still present. */
  lemma WorldDurable(cfg: Config, states: seq<Sys>, actions: seq<Action>, i: nat, id: PackId,
                     rooted: bool, st: Path, ups: nat)
    requires Run(cfg, ASSUMED, states, actions) && i < |states|
    requires Staging(cfg.tmp, rooted, st, ups)
    ensures var s := states[i];
            id in s.held ==> HoldsWhole(s, id) || Restores(cfg, s, id)
    ensures var s := states[i];
            id in s.dirs ==> id in s.held && (s.dirs[id] == s.held[id] || Remains(s.held[id], s.dirs[id]))
    ensures states[i].core.state.pending ==> states[i].core.state.active in states[i].dirs
  {
    RunInv(cfg, ASSUMED, states, actions, i);
    var s := states[i];
    if id in s.held && !HoldsWhole(s, id) {
      RestoresHeld(cfg, s, id, rooted, st, ups);
    }
  }

  /** The head of a pack's backups replays to what a backup keeps of its world, unless a symbolic link
      survives in that. */
  ghost predicate Restores(cfg: Config, s: Sys, id: PackId)
    requires id in s.held
  {
    var v := VaultOf(s, id);
    && Head(s, id) > 0 && Head(s, id) in v.archives && v.archives[Head(s, id)].ArchiveObject?
    && var r := Replay(cfg.tmp, map[], v.archives[Head(s, id)].entries);
    && (r.Success? <==> !HasLink(Kept(s.held[id])))
    && (r.Success? ==> r.value == Kept(s.held[id]))
  }

  lemma RestoresHeld(cfg: Config, s: Sys, id: PackId, rooted: bool, st: Path, ups: nat)
    requires BackedUp(s, id) && Staging(cfg.tmp, rooted, st, ups)
    ensures Restores(cfg, s, id)
  {
    var f :| WellFormed(f) && Flat([], f) == s.held[id] && CommitsTree(VaultOf(s, id), id, f, Head(s, id));
    ArchiveRoundTrip(cfg.tmp, rooted, st, ups, f);
  }

  // --------------------------------------------------------------------- volume

  /** With eviction on, the volume never holds more than the active pack, and none when idle. */
  lemma AtMostOnePackOnVolume(cfg: Config, hyp: Hypotheses, states: seq<Sys>, actions: seq<Action>, i: nat)
    requires Timely(hyp) && Run(cfg, hyp, states, actions) && i < |states| && cfg.evict
    ensures forall id :: id in states[i].dirs ==> id == states[i].core.state.active
    ensures states[i].core.state.phase.Idle? ==> states[i].dirs == map[]
  {
    RunInv(cfg, hyp, states, actions, i);
  }

  // ---------------------------------------------------------------- generations

  /** A stop never presents a generation beyond the store's head, and presents an older one, which
      Commit refuses as a conflict, only while a backup is pending. Each pack's complete generations
      are exactly 1, 2, ..., head. */
  lemma NoGenerationConflict(cfg: Config, states: seq<Sys>, actions: seq<Action>, i: nat)
    requires Run(cfg, ASSUMED, states, actions) && i < |states|
    ensures var s := states[i];
            forall t, e: nat ::
              t in s.workers && s.workers[t].StopW? && s.workers[t].pc == CheckHead(e) ==>
                e <= Head(s, s.workers[t].id) && (e == Head(s, s.workers[t].id) || s.core.state.pending)
    ensures forall id, n: nat :: Complete(VaultOf(states[i], id), id, n) <==> 1 <= n <= Head(states[i], id)
  {
    RunInv(cfg, ASSUMED, states, actions, i);
    var s := states[i];
    forall t, e: nat | t in s.workers && s.workers[t].StopW? && s.workers[t].pc == CheckHead(e)
      ensures e <= Head(s, s.workers[t].id)
      ensures e == Head(s, s.workers[t].id) || s.core.state.pending
    {
      SoleIs(s.workers, t);
    }
    forall id, n: nat ensures Complete(VaultOf(s, id), id, n) <==> 1 <= n <= Head(s, id) {
      VaultSound(s, id);
    }
  }

  // --------------------------------------------------------- what a step may move

  /** The frame of a step that is not the end of a stop: the active pack changes only from idle. */
  lemma StartActive(cfg: Config, hyp: Hypotheses, s: Sys, t: nat, c: Choice)
    requires Takes(cfg, hyp, s, Advance(t, c)) && s.workers[t].StartW?
    ensures OneDirectory(s, Apply(cfg, s, Advance(t, c)), s.workers[t].id)
    ensures SameJob(Apply(cfg, s, Advance(t, c)), t, s.workers[t])
    ensures Apply(cfg, s, Advance(t, c)).workers.Keys <= {t}
    ensures !s.workers[t].spc.Fetching? && !s.workers[t].spc.Launch? ==>
              SameStorage(s, Apply(cfg, s, Advance(t, c)))
  {
    SoleIs(s.workers, t);
    var w := s.workers[t];
    var h := ActiveHead(s, hyp.honestHead);
    assert Beforehand(cfg, s, t, w, h);
    match w.spc {
      case Entered => EnteredControl(cfg, s, t, w, c, h);
      case Sizing => SizingControl(cfg, s, t, w, c, h);
      case Probe => ProbeControl(cfg, s, t, w, c, h);
      case Fetching(_) => FetchingControl(cfg, s, t, w, c, h);
      case Prepare(_, _, _) => PrepareControl(cfg, s, t, w, c, h);
      case Launch => LaunchControl(cfg, s, t, w, c, h);
      case Registering(_) => RegisteringControl(cfg, s, t, w, c, h);
      case Polling(_) => PollingControl(cfg, s, t, w, c, h);
    }
  }

  lemma StopActive(cfg: Config, hyp: Hypotheses, s: Sys, t: nat, c: Choice)
    requires Takes(cfg, hyp, s, Advance(t, c)) && s.workers[t].StopW? && ControlOnly(s.workers[t].pc)
    ensures SameStorage(s, Apply(cfg, s, Advance(t, c)))
    ensures SameJob(Apply(cfg, s, Advance(t, c)), t, s.workers[t])
    ensures Apply(cfg, s, Advance(t, c)).workers.Keys <= {t}
  {
    SoleIs(s.workers, t);
    var w := s.workers[t];
    var h := ActiveHead(s, hyp.honestHead);
    assert Beforehand(cfg, s, t, w, h);
    match w.pc {
      case Drained => DrainedControl(cfg, s, t, w, c, h);
      case SaveAll(_) => SaveAllControl(cfg, s, t, w, c, h);
      case StopCommand(_) => StopCommandControl(cfg, s, t, w, c, h);
      case Await(_) => AwaitControl(cfg, s, t, w, c, h);
      case ReadGeneration => ReadGenerationControl(cfg, s, t, w, c, h);
      case CheckHead(_) => CheckHeadControl(cfg, s, t, w, c, h);
      case Verify(_) => VerifyControl(cfg, s, t, w, c, h);
      case Record(_) => RecordControl(cfg, s, t, w, c, h);
      case Unrecorded => UnrecordedControl(cfg, s, t, w, c, h);
      case Failing => FailingControl(cfg, s, t, w, c, h);
    }
  }

  ghost predicate Finishing(s: Sys, a: Action) {
    a.Advance? && a.t in s.workers && s.workers[a.t].StopW? && s.workers[a.t].pc.Finish?
  }

  ghost predicate NoSwitch(s: Sys) {
    forall t :: t in s.workers && s.workers[t].StopW? ==> !s.workers[t].kind.Switch?
  }

  /** Only the last section of a stop takes the active pack away. */
  lemma OnlyFinishChangesPack(cfg: Config, hyp: Hypotheses, s: Sys, a: Action)
    requires Takes(cfg, hyp, s, a) && s.core.state.active != "" && !Finishing(s, a)
    ensures Apply(cfg, s, a).core.state.active == s.core.state.active
  {
    match a
    case Login(id) => LoginKeepsPack(s, id);
    case BeginSwitch(target) => BeginKeepsPack(s, DrainForSwitch(s.core, target), Switch(target));
    case BeginIdleStop(captured) => BeginKeepsPack(s, DrainWhenIdle(s.core), IdleStop(captured));
    case BeginShutdown => BeginKeepsPack(s, DrainForShutdown(s.core), Shutdown);
    case Advance(t, c) => AdvanceKeepsPack(cfg, hyp, s, t, c);
    case WriteWorld(_, _) =>
    case Exit(_) =>
    case Observe(pid) => ExitedKeepsPack(s.core, pid);
    case Crash => CrashControl(cfg, s, Sole(s.workers), ActiveHead(s, hyp.honestHead));
  }

  lemma LoginKeepsPack(s: Sys, id: PackId)
    requires s.core.state.active != "" && !s.core.state.phase.Idle?
    ensures LoginStep(s, id).core.state.active == s.core.state.active
  {
  }

  lemma BeginKeepsPack(s: Sys, entry: (Core, bool), kind: StopKind)
    requires entry.0.state.active == s.core.state.active
    ensures BeginStep(s, entry, kind).core.state.active == s.core.state.active
  {
  }

  lemma ExitedKeepsPack(c: Core, pid: nat)
    ensures Exited(c, pid).state.active == c.state.active
  {
  }

  lemma AdvanceKeepsPack(cfg: Config, hyp: Hypotheses, s: Sys, t: nat, c: Choice)
    requires Takes(cfg, hyp, s, Advance(t, c)) && !Finishing(s, Advance(t, c))
    ensures Apply(cfg, s, Advance(t, c)).core.state.active == s.core.state.active
  {
    var w := s.workers[t];
    if w.StartW? {
      StartActive(cfg, hyp, s, t, c);
    } else if ControlOnly(w.pc) {
      StopActive(cfg, hyp, s, t, c);
    } else {
      StorageKeepsCore(cfg, s, t, w, c);
    }
  }

  lemma StorageKeepsCore(cfg: Config, s: Sys, t: nat, w: Worker, c: Choice)
    requires w.StopW? && !ControlOnly(w.pc) && !w.pc.Finish?
    ensures StopStep(cfg, s, t, w, c).core == s.core
  {
  }

  /** A switch, an idle stop or a shutdown ends only with no child and no pending backup left and,
      when Head is honest, with the store's head holding exactly the world that is given up. */
  lemma BackupBeforeSwitch(cfg: Config, hyp: Hypotheses, states: seq<Sys>, actions: seq<Action>, i: nat)
    requires Timely(hyp) && Run(cfg, hyp, states, actions) && i < |actions|
    ensures var s, s' := states[i], states[i + 1];
            var old_ := s.core.state.active;
            old_ != "" && s'.core.state.active != old_ ==>
              && s.core.process.None? && s.live == map[] && !s.core.state.pending
              && (cfg.evict ==> old_ !in s.dirs)
              && (hyp.honestHead ==> BackedUp(s, old_) && s.core.state.generation == Head(s, old_))
  {
    RunInv(cfg, hyp, states, actions, i);
    var s, a := states[i], actions[i];
    if s.core.state.active != "" && states[i + 1].core.state.active != s.core.state.active {
      assert states[i + 1] == Apply(cfg, s, a);
      if !Finishing(s, a) {
        OnlyFinishChangesPack(cfg, hyp, s, a);
      } else {
        SoleIs(s.workers, a.t);
      }
    }
  }

  // ----------------------------------------------------------------- recovery

  lemma CrashResumes(cfg: Config, s: Sys, honest: bool)
    requires Inv(cfg, s, honest)
    ensures var s' := Apply(cfg, s, Crash);
            && s'.core.state.active == s.core.state.active
            && (s.core.state.phase.Idle? ==> s'.core.state == s.core.state && s'.workers == map[])
            && (!s.core.state.phase.Idle? ==>
                  && s'.core.state.phase.Recovering?
                  && s'.workers == map[s.next := StartW(s.core.state.active, true, Entered)])
            && s'.dirs == s.dirs && s'.vaults == s.vaults && s'.live == map[] && NoSwitch(s')
  {
  }

  /** A goroutine that is not a switch does not become one. */
  lemma NoSwitchAdvance(cfg: Config, hyp: Hypotheses, s: Sys, t: nat, c: Choice)
    requires Takes(cfg, hyp, s, Advance(t, c)) && NoSwitch(s)
    ensures var s' := Apply(cfg, s, Advance(t, c));
            NoSwitch(s') && (Finishing(s, Advance(t, c)) ==> s'.core.state.phase.Idle? || s'.core == s.core)
  {
    SoleIs(s.workers, t);
    var w := s.workers[t];
    var h := ActiveHead(s, hyp.honestHead);
    assert Beforehand(cfg, s, t, w, h);
    if w.StartW? {
      StartActive(cfg, hyp, s, t, c);
    } else if ControlOnly(w.pc) {
      StopActive(cfg, hyp, s, t, c);
    } else if w.pc.Upload? {
      UploadControl(cfg, hyp, s, t, w, c, h);
    } else if w.pc.Publish? {
      PublishJob(cfg, s, t, w, c);
    } else if w.pc.Evict? {
      EvictControl(cfg, s, t, w, c, h);
    } else {
      FinishControl(cfg, s, t, w, c, h, h);
    }
  }

  lemma PublishJob(cfg: Config, s: Sys, t: nat, w: Worker, c: Choice)
    requires s.workers == map[t := w] && w.StopW? && w.pc.Publish?
    ensures SameJob(StopStep(cfg, s, t, w, c), t, w) && StopStep(cfg, s, t, w, c).workers.Keys <= {t}
  {
  }

  /** While no switch is in flight and the pack is neither ready nor idle, no step starts one. */
  lemma NoSwitchStep(cfg: Config, hyp: Hypotheses, s: Sys, a: Action)
    requires Takes(cfg, hyp, s, a) && NoSwitch(s)
    requires s.core.state.active != "" && !s.core.state.phase.Ready?
    requires !Apply(cfg, s, a).core.state.phase.Idle?
    ensures NoSwitch(Apply(cfg, s, a))
    ensures Apply(cfg, s, a).core.state.active == s.core.state.active
  {
    if a.Advance? {
      NoSwitchAdvance(cfg, hyp, s, a.t, a.choice);
    } else {
      NoSwitchBegins(cfg, s, a);
    }
    if !Finishing(s, a) {
      OnlyFinishChangesPack(cfg, hyp, s, a);
    }
  }

  lemma NoSwitchBegins(cfg: Config, s: Sys, a: Action)
    requires NoSwitch(s) && !a.Advance? && !s.core.state.phase.Ready?
    ensures NoSwitch(Apply(cfg, s, a))
  {
  }

  lemma OtherPackRefused(c: Core, id: PackId)
    requires !c.state.phase.Idle? && id != c.state.active
    ensures Ensure(c, id) == (c, Refused)
  {
  }

  lemma RunStep(cfg: Config, hyp: Hypotheses, states: seq<Sys>, actions: seq<Action>, i: nat)
    requires Timely(hyp) && Run(cfg, hyp, states, actions) && i < |actions|
    ensures Takes(cfg, hyp, states[i], actions[i])
    ensures states[i + 1] == Apply(cfg, states[i], actions[i])
  {
    RunInv(cfg, hyp, states, actions, i);
  }

  lemma NoSwitchRunStep(cfg: Config, hyp: Hypotheses, states: seq<Sys>, actions: seq<Action>, i: nat)
    requires Timely(hyp) && Run(cfg, hyp, states, actions) && i < |actions| && NoSwitch(states[i])
    requires states[i].core.state.active != "" && !states[i].core.state.phase.Ready?
    requires !states[i + 1].core.state.phase.Idle?
    ensures NoSwitch(states[i + 1]) && states[i + 1].core.state.active == states[i].core.state.active
  {
    RunStep(cfg, hyp, states, actions, i);
    NoSwitchStep(cfg, hyp, states[i], actions[i]);
  }

  /** After a crash in a non-idle phase the same pack is resumed: as long as no state is ready or
      idle, it stays the active pack, and a login for any other pack is refused and changes
      nothing. */
  lemma {:induction false} SamePackResumed(cfg: Config, hyp: Hypotheses, states: seq<Sys>, actions: seq<Action>,
                                           c: nat, j: nat)
    requires Timely(hyp) && Run(cfg, hyp, states, actions) && c < |actions| && actions[c].Crash?
    requires c < j < |states| && !states[c].core.state.phase.Idle?
    requires forall k :: c < k <= j ==> !states[k].core.state.phase.Ready? && !states[k].core.state.phase.Idle?
    ensures states[j].core.state.active == states[c].core.state.active != ""
    ensures NoSwitch(states[j])
    ensures forall other :: other != states[c].core.state.active ==>
              Ensure(states[j].core, other) == (states[j].core, Refused)
    decreases j
  {
    if j == c + 1 {
      RunStep(cfg, hyp, states, actions, c);
      CrashResumes(cfg, states[c], hyp.honestHead);
    } else {
      SamePackResumed(cfg, hyp, states, actions, c, j - 1);
      NoSwitchRunStep(cfg, hyp, states, actions, j - 1);
    }
    forall other | other != states[c].core.state.active
      ensures Ensure(states[j].core, other) == (states[j].core, Refused)
    {
      OtherPackRefused(states[j].core, other);
    }
  }

  // ----------------------------------------------------- an evicted world returns

  ghost predicate Returns(s: Sys, s': Sys, id: PackId)
    requires id in s.held
  {
    && id in s'.held
    && (id !in s'.dirs ==> s'.held[id] == s.held[id])
    && (id in s'.dirs ==> s'.dirs[id] == Kept(s.held[id]))
  }

  lemma EvictedStartStep(cfg: Config, s: Sys, t: nat, c: Choice, id: PackId, rooted: bool, st: Path, ups: nat)
    requires Takes(cfg, ASSUMED, s, Advance(t, c)) && s.workers[t].StartW?
    requires Staging(cfg.tmp, rooted, st, ups) && id in s.held && id !in s.dirs
    ensures Returns(s, Apply(cfg, s, Advance(t, c)), id)
  {
    SoleIs(s.workers, t);
    var w := s.workers[t];
    StartActive(cfg, ASSUMED, s, t, c);
    RestoresHeld(cfg, s, id, rooted, st, ups);
    if w.spc.Fetching? && w.id == id {
      FetchedContent(cfg, s, t, w, c);
    }
  }

  /** What the restore of start puts on the disk. */
  lemma FetchedContent(cfg: Config, s: Sys, t: nat, w: Worker, c: Choice)
    requires w.StartW? && w.spc.Fetching? && w.id !in s.dirs && !c.Overlooked?
    ensures var s' := StartStep(cfg, s, t, w, c);
            w.id in s'.dirs ==>
              var v := VaultOf(s, w.id);
              && Head(s, w.id) in v.archives && v.archives[Head(s, w.id)].ArchiveObject?
              && Replay(cfg.tmp, map[], v.archives[Head(s, w.id)].entries) == Success(s'.dirs[w.id])
  {
  }

  lemma EvictedStopStep(cfg: Config, s: Sys, t: nat, c: Choice, id: PackId)
    requires Takes(cfg, ASSUMED, s, Advance(t, c)) && s.workers[t].StopW?
    requires id in s.held && id !in s.dirs
    ensures Returns(s, Apply(cfg, s, Advance(t, c)), id)
  {
    SoleIs(s.workers, t);
    var w := s.workers[t];
    var h := ActiveHead(s, true);
    assert Beforehand(cfg, s, t, w, h);
    if ControlOnly(w.pc) {
      StopActive(cfg, ASSUMED, s, t, c);
    } else if w.pc.Finish? {
      FinishControl(cfg, s, t, w, c, h, h);
    } else {
      StorageDirs(cfg, s, t, w, c);
    }
  }

  /** The directories after an upload or a step of an eviction. */
  ghost function DirsAfter(s: Sys, w: Worker, c: Choice): map<PackId, Fs>
    requires w.StopW?
  {
    if !w.pc.Evict? || c.Fault? then s.dirs
    else if c.Partly? then s.dirs[w.id := c.fs]
    else s.dirs - {w.id}
  }

  lemma StorageDirs(cfg: Config, s: Sys, t: nat, w: Worker, c: Choice)
    requires w.StopW? && (w.pc.Upload? || w.pc.Publish? || w.pc.Evict?)
    ensures StopStep(cfg, s, t, w, c).held == s.held
    ensures StopStep(cfg, s, t, w, c).dirs == DirsAfter(s, w, c)
  {
  }

  /** One step from a state in which a pack's world exists only as a backup: it stays there, or
      it comes back as exactly what the backup kept. It is never replaced by a new world. */
  lemma EvictedStep(cfg: Config, s: Sys, a: Action, id: PackId, rooted: bool, st: Path, ups: nat)
    requires Takes(cfg, ASSUMED, s, a)
    requires Staging(cfg.tmp, rooted, st, ups) && id in s.held && id !in s.dirs
    ensures Returns(s, Apply(cfg, s, a), id)
  {
    if a.Advance? {
      if s.workers[a.t].StartW? {
        EvictedStartStep(cfg, s, a.t, a.choice, id, rooted, st, ups);
      } else {
        EvictedStopStep(cfg, s, a.t, a.choice, id);
      }
    } else if a.WriteWorld? {
      WriterHasDirectory(cfg, s, a.pid);
      WrittenOnly(cfg, s, a.pid, a.fs, id);
    } else {
      OthersKeepDisk(cfg, s, a);
    }
  }

  /** Steps that belong to no goroutine and to no running child leave disk and store alone. */
  lemma OthersKeepDisk(cfg: Config, s: Sys, a: Action)
    requires !a.Advance? && !a.WriteWorld?
    ensures SameDisk(s, Apply(cfg, s, a))
  {
    match a {
      case Login(id) => LoginKeepsDisk(s, id);
      case BeginSwitch(target) => BeginKeepsDisk(s, DrainForSwitch(s.core, target), Switch(target));
      case BeginIdleStop(captured) => BeginKeepsDisk(s, DrainWhenIdle(s.core), IdleStop(captured));
      case BeginShutdown => BeginKeepsDisk(s, DrainForShutdown(s.core), Shutdown);
      case Exit(_) =>
      case Observe(_) =>
      case Crash => CrashKeepsDisk(s);
    }
  }

  lemma LoginKeepsDisk(s: Sys, id: PackId)
    ensures SameDisk(s, LoginStep(s, id))
  {
  }

  lemma BeginKeepsDisk(s: Sys, entry: (Core, bool), kind: StopKind)
    ensures SameDisk(s, BeginStep(s, entry, kind))
  {
  }

  lemma CrashKeepsDisk(s: Sys)
    ensures SameDisk(s, CrashStep(s))
  {
  }

  lemma WrittenOnly(cfg: Config, s: Sys, pid: nat, fs: Fs, id: PackId)
    requires pid in s.live && s.live[pid] != id && id in s.held && id !in s.dirs
    ensures Returns(s, Apply(cfg, s, WriteWorld(pid, fs)), id)
  {
  }

  lemma WriterHasDirectory(cfg: Config, s: Sys, pid: nat)
    requires Inv(cfg, s, true) && pid in s.live
    ensures s.live[pid] == s.core.state.active && s.core.state.active in s.dirs
  {
    if s.core.process != Some(pid) {
      OwnerOfUnregistered(cfg, s, true, pid);
      var t :| t in s.workers;
      SoleIs(s.workers, t);
    }
  }

  lemma EvictedRunStep(cfg: Config, states: seq<Sys>, actions: seq<Action>, i: nat,
                       id: PackId, rooted: bool, st: Path, ups: nat)
    requires Run(cfg, ASSUMED, states, actions) && i < |actions|
    requires Staging(cfg.tmp, rooted, st, ups)
    requires id in states[i].held && id !in states[i].dirs
    ensures Returns(states[i], states[i + 1], id)
  {
    RunStep(cfg, ASSUMED, states, actions, i);
    EvictedStep(cfg, states[i], actions[i], id, rooted, st, ups);
  }

  ghost predicate OnlyBackedUp(s: Sys, id: PackId, fs: Fs) {
    id in s.held && id !in s.dirs && s.held[id] == fs
  }

  ghost predicate CameBack(states: seq<Sys>, i: nat, j: nat, id: PackId, fs: Fs)
    requires j < |states|
  {
    exists k :: i < k <= j && id in states[k].dirs && states[k].dirs[id] == Kept(fs)
  }

  /** Whenever an evicted world is present again, it first came back as what its backup kept. */
  lemma {:induction false} EvictedWorldReturns(cfg: Config, states: seq<Sys>, actions: seq<Action>, i: nat, j: nat,
                                               id: PackId, fs: Fs, rooted: bool, st: Path, ups: nat)
    requires Run(cfg, ASSUMED, states, actions) && i <= j < |states|
    requires Staging(cfg.tmp, rooted, st, ups)
    requires OnlyBackedUp(states[i], id, fs)
    ensures OnlyBackedUp(states[j], id, fs) || CameBack(states, i, j, id, fs)
    decreases j - i
  {
    if i == j {
    } else {
      EvictedWorldReturns(cfg, states, actions, i, j - 1, id, fs, rooted, st, ups);
      if OnlyBackedUp(states[j - 1], id, fs) {
        EvictedRunStep(cfg, states, actions, j - 1, id, rooted, st, ups);
        if id in states[j].dirs {
          assert CameBack(states, i, j, id, fs);
        }
      } else {
        var k :| i < k <= j - 1 && id in states[k].dirs && states[k].dirs[id] == Kept(fs);
        assert CameBack(states, i, j, id, fs);
      }
    }
  }

  /** A start that finds the world evicted brings it back in two undisturbed steps, exactly when
      what the backup kept holds no symbolic link. */
  lemma RestoreSucceeds(cfg: Config, s: Sys, t: nat, id: PackId, recovery: bool, rooted: bool, st: Path, ups: nat)
    requires Inv(cfg, s, true) && t in s.workers && s.workers[t] == StartW(id, recovery, Probe)
    requires id in s.held && id !in s.dirs && Staging(cfg.tmp, rooted, st, ups)
    ensures var s1 := Apply(cfg, s, Advance(t, Go));
            var s2 := Apply(cfg, s1, Advance(t, Go));
            && s1.dirs == s.dirs
            && (id in s2.dirs <==> !HasLink(Kept(s.held[id])))
            && (id in s2.dirs ==> s2.dirs[id] == Kept(s.held[id]) && t in s2.workers)
            && (id !in s2.dirs ==> s2.core.state.phase == Phase.Failed)
  {
    RestoresHeld(cfg, s, id, rooted, st, ups);
    FetchStep(cfg, s, t, id, recovery);
    FetchedIff(cfg, Goto(s, t, StartW(id, recovery, Fetching(Head(s, id)))), t, id, recovery, Head(s, id));
  }

  lemma FetchStep(cfg: Config, s: Sys, t: nat, id: PackId, recovery: bool)
    requires t in s.workers && s.workers[t] == StartW(id, recovery, Probe) && id !in s.dirs && Head(s, id) > 0
    ensures Apply(cfg, s, Advance(t, Go)) == Goto(s, t, StartW(id, recovery, Fetching(Head(s, id))))
  {
  }

  lemma FetchedIff(cfg: Config, s: Sys, t: nat, id: PackId, recovery: bool, gen: nat)
    requires t in s.workers && s.workers[t] == StartW(id, recovery, Fetching(gen)) && id !in s.dirs
    requires Head(s, id) > 0 && Head(s, id) in VaultOf(s, id).archives
    requires VaultOf(s, id).archives[Head(s, id)].ArchiveObject?
    ensures var s' := Apply(cfg, s, Advance(t, Go));
            match Replay(cfg.tmp, map[], VaultOf(s, id).archives[Head(s, id)].entries)
            case Failure(_) => s'.dirs == s.dirs && s'.core.state.phase == Phase.Failed
            case Success(fs) => s'.dirs == s.dirs[id := fs] && t in s'.workers
  {
  }

  // ------------------------------------------------------------------- backups

  lemma PreservesTrans(u: Vault, v: Vault, w: Vault, id: PackId)
    requires Preserves(u, v, id) && Preserves(v, w, id)
    ensures Preserves(u, w, id)
  {
  }

  lemma StepPreserves(cfg: Config, s: Sys, a: Action, id: PackId)
    requires Takes(cfg, ASSUMED, s, a)
    ensures Preserves(VaultOf(s, id), VaultOf(Apply(cfg, s, a), id), id)
  {
    if a.Advance? {
      AdvancePreserves(cfg, s, a.t, a.choice, id);
    } else if !a.WriteWorld? {
      OthersKeepDisk(cfg, s, a);
    }
  }

  lemma AdvancePreserves(cfg: Config, s: Sys, t: nat, c: Choice, id: PackId)
    requires Takes(cfg, ASSUMED, s, Advance(t, c))
    ensures Preserves(VaultOf(s, id), VaultOf(Apply(cfg, s, Advance(t, c)), id), id)
  {
    var w := s.workers[t];
    SoleIs(s.workers, t);
    if w.StartW? {
      StartActive(cfg, ASSUMED, s, t, c);
    } else if ControlOnly(w.pc) {
      StopActive(cfg, ASSUMED, s, t, c);
    } else {
      StopPreserves(cfg, s, t, w, c, id);
    }
  }

  lemma StopPreserves(cfg: Config, s: Sys, t: nat, w: Worker, c: Choice, id: PackId)
    requires Data(s) && w.StopW? && !ControlOnly(w.pc)
    requires w.pc.Upload? ==> w.pc.gen == Head(s, w.id) + 1
    requires w.pc.Publish? ==> ReadyToPublish(s, w.id, w.pc.m, Head(s, w.id))
    ensures Preserves(VaultOf(s, id), VaultOf(StopStep(cfg, s, t, w, c), id), id)
  {
    StorageVaults(cfg, s, t, w, c);
    if c.Put? {
      StoragePreserves(s, w, c);
    }
  }

  lemma StoragePreserves(s: Sys, w: Worker, c: Choice)
    requires Data(s) && w.StopW? && c.Put?
    ensures var v := VaultOf(s, w.id);
            && (w.pc.Upload? && w.pc.gen == Head(s, w.id) + 1 ==>
                  && Preserves(v, PutArchive(v, w.pc.gen, ArchiveObject(WriteArchive(c.tree), c.bytes), c.outcome),
                               w.id)
                  && Preserves(v, PutArchive(v, w.pc.gen, Junk([]), BrokenStream(c.outcome)), w.id))
            && (w.pc.Publish? && ReadyToPublish(s, w.id, w.pc.m, Head(s, w.id)) ==>
                  Preserves(v, PutManifest(v, w.pc.m, c.outcome), w.id))
  {
    VaultSound(s, w.id);
    var v := VaultOf(s, w.id);
    if w.pc.Upload? {
      ArchivePutHarmless(v, w.id, ArchiveObject(WriteArchive(c.tree), c.bytes), c.outcome);
      ArchivePutHarmless(v, w.id, Junk([]), BrokenStream(c.outcome));
    } else if w.pc.Publish? && ReadyToPublish(s, w.id, w.pc.m, Head(s, w.id)) {
      ManifestPutDecides(v, w.id, w.pc.m, c.outcome);
    }
  }

  /** The vaults after a step of a stop that reaches the disk or the store. */
  lemma StorageVaults(cfg: Config, s: Sys, t: nat, w: Worker, c: Choice)
    requires w.StopW? && !ControlOnly(w.pc)
    ensures var v := VaultOf(s, w.id);
            StopStep(cfg, s, t, w, c).vaults ==
            if w.pc.Upload? && c.Put? then
              s.vaults[w.id := if w.id in s.dirs
                               then PutArchive(v, w.pc.gen, ArchiveObject(WriteArchive(c.tree), c.bytes), c.outcome)
                               else PutArchive(v, w.pc.gen, Junk([]), BrokenStream(c.outcome))]
            else if w.pc.Publish? && c.Put? then s.vaults[w.id := PutManifest(v, w.pc.m, c.outcome)]
            else s.vaults
  {
    if w.pc.Upload? {
      UploadVaults(cfg, s, t, w, c);
    } else if w.pc.Publish? {
      PublishVaults(cfg, s, t, w, c);
    } else if w.pc.Evict? {
      EvictVaults(cfg, s, t, w, c);
    } else {
      FinishVaults(cfg, s, t, w, c);
    }
  }

  lemma EvictVaults(cfg: Config, s: Sys, t: nat, w: Worker, c: Choice)
    requires w.StopW? && w.pc.Evict?
    ensures StopStep(cfg, s, t, w, c).vaults == s.vaults
  {
  }

  lemma FinishVaults(cfg: Config, s: Sys, t: nat, w: Worker, c: Choice)
    requires w.StopW? && w.pc.Finish?
    ensures StopStep(cfg, s, t, w, c).vaults == s.vaults
  {
  }

  lemma UploadVaults(cfg: Config, s: Sys, t: nat, w: Worker, c: Choice)
    requires w.StopW? && w.pc.Upload?
    ensures var v := VaultOf(s, w.id);
            StopStep(cfg, s, t, w, c).vaults ==
            if !c.Put? then s.vaults
            else
              s.vaults[w.id := if w.id in s.dirs
                               then PutArchive(v, w.pc.gen, ArchiveObject(WriteArchive(c.tree), c.bytes), c.outcome)
                               else PutArchive(v, w.pc.gen, Junk([]), BrokenStream(c.outcome))]
  {
  }

  lemma PublishVaults(cfg: Config, s: Sys, t: nat, w: Worker, c: Choice)
    requires w.StopW? && w.pc.Publish?
    ensures StopStep(cfg, s, t, w, c).vaults ==
            if c.Put? then s.vaults[w.id := PutManifest(VaultOf(s, w.id), w.pc.m, c.outcome)] else s.vaults
  {
  }

  lemma RunStepPreserves(cfg: Config, states: seq<Sys>, actions: seq<Action>, i: nat, id: PackId)
    requires Run(cfg, ASSUMED, states, actions) && i < |actions|
    ensures Preserves(VaultOf(states[i], id), VaultOf(states[i + 1], id), id)
  {
    RunStep(cfg, ASSUMED, states, actions, i);
    StepPreserves(cfg, states[i], actions[i], id);
  }

  /** Over every run, a complete generation keeps its archive and its manifest for ever, and the
      head never goes back. */
  lemma GenerationsImmutable(cfg: Config, states: seq<Sys>, actions: seq<Action>, i: nat, j: nat, id: PackId)
    requires Run(cfg, ASSUMED, states, actions) && i <= j < |states|
    ensures Preserves(VaultOf(states[i], id), VaultOf(states[j], id), id)
    ensures Head(states[i], id) <= Head(states[j], id)
  {
    var vs := VaultsOf(states, id);
    forall k | 0 <= k < |actions|
      ensures Preserves(vs[k], vs[k + 1], id)
    {
      RunStepPreserves(cfg, states, actions, k, id);
    }
    ChainPreserves(vs, id, i, j);
    PreservedHead(vs[i], vs[j], id);
  }

  ghost function VaultsOf(states: seq<Sys>, id: PackId): (vs: seq<Vault>)
    ensures |vs| == |states| && forall k :: 0 <= k < |vs| ==> vs[k] == VaultOf(states[k], id)
  {
    seq(|states|, k requires 0 <= k < |states| => VaultOf(states[k], id))
  }

  lemma {:induction false} ChainPreserves(vs: seq<Vault>, id: PackId, i: nat, j: nat)
    requires i <= j < |vs|
    requires forall k :: 0 <= k < |vs| - 1 ==> Preserves(vs[k], vs[k + 1], id)
    ensures Preserves(vs[i], vs[j], id)
    decreases j - i
  {
    if i == j {
    } else {
      ChainPreserves(vs, id, i, j - 1);
      assert Preserves(vs[j - 1], vs[j - 1 + 1], id);
      PreservesTrans(vs[i], vs[j - 1], vs[j], id);
    }
  }

  lemma PreservedHead(v: Vault, w: Vault, id: PackId)
    requires Preserves(v, w, id)
    ensures HeadGen(v, id) <= HeadGen(w, id)
  {
    HeadIsGreatest(v, id);
    HeadIsGreatest(w, id);
  }
}
