/** Every step of the lifecycle keeps the control part of the invariant. */
module LifecycleControl {
  import opened Wrappers
  import opened Sections
  import opened Archive
  import opened Generations
  import opened Lifecycle
  import opened LifecycleInvariant

  /** The goroutine left at `t` after it took a step. */
  ghost function Left(s: Sys, t: nat): Option<Worker> {
    if t in s.workers then Some(s.workers[t]) else None
  }

  ghost predicate Beforehand(cfg: Config, s: Sys, t: nat, w: Worker, h: Option<nat>) {
    s.workers == map[t := w] && Control(cfg, s, Some(w), h)
  }

  ghost predicate Afterwards(cfg: Config, s: Sys, t: nat, h: Option<nat>) {
    s.workers.Keys <= {t} && Control(cfg, s, Left(s, t), h)
  }

  /** Neither the disk nor the store changes. */
  ghost predicate SameDisk(s: Sys, s': Sys) {
    s'.vaults == s.vaults && s'.dirs == s.dirs && s'.held == s.held
  }

  /** ... nor the active pack. */
  ghost predicate SameStorage(s: Sys, s': Sys) {
    SameDisk(s, s') && s'.core.state.active == s.core.state.active
  }

  /** At most the directory of pack `id` changes. */
  ghost predicate OneDirectory(s: Sys, s': Sys, id: PackId) {
    || SameStorage(s, s')
    || (id in s'.dirs && SameStorage(SetDir(s, id, s'.dirs[id]), s'))
  }

  /** A start stays a start, a stop stays the same kind of stop. */
  ghost predicate SameJob(s': Sys, t: nat, w: Worker) {
    t in s'.workers ==>
      && s'.workers[t].StartW? == w.StartW?
      && (w.StopW? ==> s'.workers[t].kind == w.kind)
  }

  /** fail: the pack stays active, no goroutine is left. */
  lemma FailControl(cfg: Config, s: Sys, t: nat, w: Worker, h: Option<nat>)
    requires Beforehand(cfg, s, t, w, h) && s.core.state.active != ""
    requires w.StartW? && w.spc.Registering? ==> s.live == map[]
    ensures Afterwards(cfg, FailAndStop(s, t, s.core.state.active), t, h)
  {
  }

  lemma EnteredControl(cfg: Config, s: Sys, t: nat, w: Worker, c: Choice, h: Option<nat>)
    requires Beforehand(cfg, s, t, w, h) && w.StartW? && w.spc.Entered?
    ensures Afterwards(cfg, StartStep(cfg, s, t, w, c), t, h)
    ensures SameStorage(s, StartStep(cfg, s, t, w, c))
    ensures SameJob(StartStep(cfg, s, t, w, c), t, w)
  {
    if c.Fault? {
      FailControl(cfg, s, t, w, h);
    }
  }

  lemma SizingControl(cfg: Config, s: Sys, t: nat, w: Worker, c: Choice, h: Option<nat>)
    requires Beforehand(cfg, s, t, w, h) && w.StartW? && w.spc.Sizing?
    ensures Afterwards(cfg, StartStep(cfg, s, t, w, c), t, h)
    ensures SameStorage(s, StartStep(cfg, s, t, w, c))
    ensures SameJob(StartStep(cfg, s, t, w, c), t, w)
  {
    if c.Fault? {
      FailControl(cfg, s, t, w, h);
    }
  }

  lemma ProbeControl(cfg: Config, s: Sys, t: nat, w: Worker, c: Choice, h: Option<nat>)
    requires Beforehand(cfg, s, t, w, h) && w.StartW? && w.spc.Probe?
    requires h.Some? ==> h.value == Head(s, w.id) && !c.Overlooked?
    ensures Afterwards(cfg, StartStep(cfg, s, t, w, c), t, h)
    ensures SameStorage(s, StartStep(cfg, s, t, w, c))
    ensures SameJob(StartStep(cfg, s, t, w, c), t, w)
  {
    ProbeStep(cfg, s, t, w, c);
    if c.Fault? || (c.Unreadable? && w.id !in s.dirs) {
      FailControl(cfg, s, t, w, h);
    } else if c.Unreadable? {
      UnreadControl(cfg, s, t, w, h);
    } else {
      ProbedControl(cfg, s, t, w, h, Probed(s, w.id, c));
    }
  }

  /** Where the head check of start leads. */
  ghost function Probed(s: Sys, id: PackId, c: Choice): StartPc {
    var head := Seen(VaultOf(s, id), id, c);
    if c.Unreadable? then Prepare(false, 0, true)
    else if id !in s.dirs && head > 0 then Fetching(head)
    else Prepare(head > 0, head, false)
  }

  lemma ProbeStep(cfg: Config, s: Sys, t: nat, w: Worker, c: Choice)
    requires w.StartW? && w.spc.Probe?
    ensures StartStep(cfg, s, t, w, c) ==
            if c.Fault? || (c.Unreadable? && w.id !in s.dirs) then FailAndStop(s, t, w.id)
            else Goto(s, t, w.(spc := Probed(s, w.id, c)))
  {
  }

  /** A start with no child yet moves on without changing anything else. */
  lemma ProbedControl(cfg: Config, s: Sys, t: nat, w: Worker, h: Option<nat>, spc: StartPc)
    requires Beforehand(cfg, s, t, w, h) && w.StartW? && w.spc.Probe?
    requires match spc
             case Fetching(gen) => w.id !in s.dirs && gen > 0 && (h.Some? ==> gen == h.value)
             case Prepare(exists_, gen, headError) =>
               && !headError && (exists_ <==> gen > 0) && (exists_ ==> w.id in s.dirs) && (h.Some? ==> gen == h.value)
             case _ => false
    ensures Afterwards(cfg, Goto(s, t, w.(spc := spc)), t, h)
  {
  }

  /** A start whose world is on the disk goes on when the head of its backups cannot be read. */
  lemma UnreadControl(cfg: Config, s: Sys, t: nat, w: Worker, h: Option<nat>)
    requires Beforehand(cfg, s, t, w, h) && w.StartW? && w.spc.Probe? && w.id in s.dirs
    ensures Afterwards(cfg, Goto(s, t, w.(spc := Prepare(false, 0, true))), t, h)
  {
  }

  lemma FetchingControl(cfg: Config, s: Sys, t: nat, w: Worker, c: Choice, h: Option<nat>)
    requires Beforehand(cfg, s, t, w, h) && w.StartW? && w.spc.Fetching?
    ensures Afterwards(cfg, StartStep(cfg, s, t, w, c), t, h)
    ensures OneDirectory(s, StartStep(cfg, s, t, w, c), w.id)
    ensures SameJob(StartStep(cfg, s, t, w, c), t, w)
  {
    var s' := StartStep(cfg, s, t, w, c);
    if t in s'.workers {
      RestoredControl(cfg, s, t, w, h, s'.dirs[w.id]);
    } else {
      FailControl(cfg, s, t, w, h);
    }
  }

  lemma RestoredControl(cfg: Config, s: Sys, t: nat, w: Worker, h: Option<nat>, fs: Fs)
    requires Beforehand(cfg, s, t, w, h) && w.StartW? && w.spc.Fetching?
    ensures Afterwards(cfg, Goto(SetDir(s, w.id, fs), t, w.(spc := Prepare(true, w.spc.gen, false))), t, h)
  {
  }

  lemma PrepareControl(cfg: Config, s: Sys, t: nat, w: Worker, c: Choice, h: Option<nat>)
    requires Beforehand(cfg, s, t, w, h) && w.StartW? && w.spc.Prepare?
    ensures Afterwards(cfg, StartStep(cfg, s, t, w, c), t, h)
    ensures SameStorage(s, StartStep(cfg, s, t, w, c))
    ensures SameJob(StartStep(cfg, s, t, w, c), t, w)
  {
    if c.Fault? {
      FailControl(cfg, s, t, w, h);
    }
  }

  lemma LaunchControl(cfg: Config, s: Sys, t: nat, w: Worker, c: Choice, h: Option<nat>)
    requires Beforehand(cfg, s, t, w, h) && w.StartW? && w.spc.Launch?
    ensures Afterwards(cfg, StartStep(cfg, s, t, w, c), t, h)
    ensures OneDirectory(s, StartStep(cfg, s, t, w, c), w.id)
    ensures SameJob(StartStep(cfg, s, t, w, c), t, w)
  {
    if c.Fault? {
      FailControl(cfg, s, t, w, h);
    } else if c.Edited? {
      LaunchedControl(cfg, s, t, w, h, c.fs);
    }
  }

  lemma LaunchedControl(cfg: Config, s: Sys, t: nat, w: Worker, h: Option<nat>, fs: Fs)
    requires Beforehand(cfg, s, t, w, h) && w.StartW? && w.spc.Launch?
    ensures var launched := SetDir(s, w.id, fs).(live := s.live[s.next := w.id], next := s.next + 1);
            Afterwards(cfg, Goto(launched, t, w.(spc := Registering(s.next))), t, h)
  {
  }

  lemma RegisteringControl(cfg: Config, s: Sys, t: nat, w: Worker, c: Choice, h: Option<nat>)
    requires Beforehand(cfg, s, t, w, h) && w.StartW? && w.spc.Registering?
    ensures Afterwards(cfg, StartStep(cfg, s, t, w, c), t, h)
    ensures SameStorage(s, StartStep(cfg, s, t, w, c))
    ensures SameJob(StartStep(cfg, s, t, w, c), t, w)
  {
  }

  lemma PollingControl(cfg: Config, s: Sys, t: nat, w: Worker, c: Choice, h: Option<nat>)
    requires Beforehand(cfg, s, t, w, h) && w.StartW? && w.spc.Polling?
    ensures Afterwards(cfg, StartStep(cfg, s, t, w, c), t, h)
    ensures SameStorage(s, StartStep(cfg, s, t, w, c))
    ensures SameJob(StartStep(cfg, s, t, w, c), t, w)
  {
  }

  lemma DrainedControl(cfg: Config, s: Sys, t: nat, w: Worker, c: Choice, h: Option<nat>)
    requires Beforehand(cfg, s, t, w, h) && w.StopW? && w.pc.Drained?
    ensures Afterwards(cfg, StopStep(cfg, s, t, w, c), t, h)
    ensures SameStorage(s, StopStep(cfg, s, t, w, c))
    ensures SameJob(StopStep(cfg, s, t, w, c), t, w)
  {
  }

  lemma SaveAllControl(cfg: Config, s: Sys, t: nat, w: Worker, c: Choice, h: Option<nat>)
    requires Beforehand(cfg, s, t, w, h) && w.StopW? && w.pc.SaveAll?
    ensures Afterwards(cfg, StopStep(cfg, s, t, w, c), t, h)
    ensures SameStorage(s, StopStep(cfg, s, t, w, c))
    ensures SameJob(StopStep(cfg, s, t, w, c), t, w)
  {
  }

  lemma StopCommandControl(cfg: Config, s: Sys, t: nat, w: Worker, c: Choice, h: Option<nat>)
    requires Beforehand(cfg, s, t, w, h) && w.StopW? && w.pc.StopCommand?
    ensures Afterwards(cfg, StopStep(cfg, s, t, w, c), t, h)
    ensures SameStorage(s, StopStep(cfg, s, t, w, c))
    ensures SameJob(StopStep(cfg, s, t, w, c), t, w)
  {
  }

  lemma AwaitControl(cfg: Config, s: Sys, t: nat, w: Worker, c: Choice, h: Option<nat>)
    requires Beforehand(cfg, s, t, w, h) && w.StopW? && w.pc.Await?
    ensures Afterwards(cfg, StopStep(cfg, s, t, w, c), t, h)
    ensures SameStorage(s, StopStep(cfg, s, t, w, c))
    ensures SameJob(StopStep(cfg, s, t, w, c), t, w)
  {
    if s.core.process.None? {
      AwaitedControl(cfg, s, t, w, h);
    } else if c.Fault? {
      OverdueControl(cfg, s, t, w, h);
    }
  }

  lemma AwaitedControl(cfg: Config, s: Sys, t: nat, w: Worker, h: Option<nat>)
    requires Beforehand(cfg, s, t, w, h) && w.StopW? && w.pc.Await? && s.core.process.None?
    ensures Afterwards(cfg, Goto(s, t, w.(pc := ReadGeneration)), t, h)
  {
  }

  lemma OverdueControl(cfg: Config, s: Sys, t: nat, w: Worker, h: Option<nat>)
    requires Beforehand(cfg, s, t, w, h) && w.StopW? && w.pc.Await?
    ensures Afterwards(cfg, Goto(Kill(s, w.pc.proc), t, w.(pc := Failing)), t, h)
  {
  }

  lemma ReadGenerationControl(cfg: Config, s: Sys, t: nat, w: Worker, c: Choice, h: Option<nat>)
    requires Beforehand(cfg, s, t, w, h) && w.StopW? && w.pc.ReadGeneration?
    ensures Afterwards(cfg, StopStep(cfg, s, t, w, c), t, h)
    ensures SameStorage(s, StopStep(cfg, s, t, w, c))
    ensures SameJob(StopStep(cfg, s, t, w, c), t, w)
  {
  }

  lemma CheckHeadControl(cfg: Config, s: Sys, t: nat, w: Worker, c: Choice, h: Option<nat>)
    requires Beforehand(cfg, s, t, w, h) && w.StopW? && w.pc.CheckHead?
    requires h.Some? ==> h.value == Head(s, w.id) && !c.Overlooked?
    ensures Afterwards(cfg, StopStep(cfg, s, t, w, c), t, h)
    ensures SameStorage(s, StopStep(cfg, s, t, w, c))
    ensures SameJob(StopStep(cfg, s, t, w, c), t, w)
  {
    if c.Unreadable? || Seen(VaultOf(s, w.id), w.id, c) != w.pc.expected {
      CheckRefusedControl(cfg, s, t, w, h);
    } else {
      CheckPassedControl(cfg, s, t, w, h);
    }
  }

  lemma CheckRefusedControl(cfg: Config, s: Sys, t: nat, w: Worker, h: Option<nat>)
    requires Beforehand(cfg, s, t, w, h) && w.StopW? && w.pc.CheckHead?
    ensures Afterwards(cfg, Goto(s, t, w.(pc := Unrecorded)), t, h)
  {
  }

  lemma CheckPassedControl(cfg: Config, s: Sys, t: nat, w: Worker, h: Option<nat>)
    requires Beforehand(cfg, s, t, w, h) && w.StopW? && w.pc.CheckHead? && (h.Some? ==> w.pc.expected == h.value)
    ensures Afterwards(cfg, Goto(s, t, w.(pc := Upload(w.pc.expected + 1))), t, h)
  {
  }

  lemma VerifyControl(cfg: Config, s: Sys, t: nat, w: Worker, c: Choice, h: Option<nat>)
    requires Beforehand(cfg, s, t, w, h) && w.StopW? && w.pc.Verify?
    ensures Afterwards(cfg, StopStep(cfg, s, t, w, c), t, h)
    ensures SameStorage(s, StopStep(cfg, s, t, w, c))
    ensures SameJob(StopStep(cfg, s, t, w, c), t, w)
  {
    if c.Unreadable? || !VerifiedAs(VaultOf(s, w.id), w.pc.m, Seen(VaultOf(s, w.id), w.id, c)) {
      UnverifiedControl(cfg, s, t, w, h);
    } else {
      VerifiedControl(cfg, s, t, w, h);
    }
  }

  lemma UnverifiedControl(cfg: Config, s: Sys, t: nat, w: Worker, h: Option<nat>)
    requires Beforehand(cfg, s, t, w, h) && w.StopW? && w.pc.Verify?
    ensures Afterwards(cfg, Goto(s, t, w.(pc := Unrecorded)), t, h)
  {
  }

  lemma VerifiedControl(cfg: Config, s: Sys, t: nat, w: Worker, h: Option<nat>)
    requires Beforehand(cfg, s, t, w, h) && w.StopW? && w.pc.Verify?
    ensures Afterwards(cfg, Goto(s, t, w.(pc := Record(w.pc.m.generation))), t, h)
  {
  }

  lemma RecordControl(cfg: Config, s: Sys, t: nat, w: Worker, c: Choice, h: Option<nat>)
    requires Beforehand(cfg, s, t, w, h) && w.StopW? && w.pc.Record?
    ensures Afterwards(cfg, StopStep(cfg, s, t, w, c), t, h)
    ensures SameStorage(s, StopStep(cfg, s, t, w, c))
    ensures SameJob(StopStep(cfg, s, t, w, c), t, w)
  {
  }

  lemma UnrecordedControl(cfg: Config, s: Sys, t: nat, w: Worker, c: Choice, h: Option<nat>)
    requires Beforehand(cfg, s, t, w, h) && w.StopW? && w.pc.Unrecorded?
    ensures Afterwards(cfg, StopStep(cfg, s, t, w, c), t, h)
    ensures SameStorage(s, StopStep(cfg, s, t, w, c))
    ensures SameJob(StopStep(cfg, s, t, w, c), t, w)
  {
  }

  lemma EvictControl(cfg: Config, s: Sys, t: nat, w: Worker, c: Choice, h: Option<nat>)
    requires Beforehand(cfg, s, t, w, h) && w.StopW? && w.pc.Evict?
    ensures Afterwards(cfg, StopStep(cfg, s, t, w, c), t, h)
    ensures SameJob(StopStep(cfg, s, t, w, c), t, w)
  {
    if c.Fault? {
      EvictFailedControl(cfg, s, t, w, h);
    } else if c.Partly? {
      EvictPartlyControl(cfg, s, t, w, c.fs, h);
    } else {
      EvictedControl(cfg, s, t, w, h);
    }
  }

  lemma EvictFailedControl(cfg: Config, s: Sys, t: nat, w: Worker, h: Option<nat>)
    requires Beforehand(cfg, s, t, w, h) && w.StopW? && w.pc.Evict?
    ensures Afterwards(cfg, Goto(s, t, w.(pc := Failing)), t, h)
  {
  }

  lemma EvictPartlyControl(cfg: Config, s: Sys, t: nat, w: Worker, fs: Fs, h: Option<nat>)
    requires Beforehand(cfg, s, t, w, h) && w.StopW? && w.pc.Evict?
    ensures Afterwards(cfg, s.(dirs := s.dirs[w.id := fs]), t, h)
  {
    var s' := s.(dirs := s.dirs[w.id := fs]);
    assert BackedUp(s', w.id) == BackedUp(s, w.id);
  }

  lemma EvictedControl(cfg: Config, s: Sys, t: nat, w: Worker, h: Option<nat>)
    requires Beforehand(cfg, s, t, w, h) && w.StopW? && w.pc.Evict?
    ensures Afterwards(cfg, Goto(s.(dirs := s.dirs - {w.id}), t, w.(pc := Finish)), t, h)
  {
  }

  lemma FailingControl(cfg: Config, s: Sys, t: nat, w: Worker, c: Choice, h: Option<nat>)
    requires Beforehand(cfg, s, t, w, h) && w.StopW? && w.pc.Failing?
    ensures Afterwards(cfg, StopStep(cfg, s, t, w, c), t, h)
    ensures SameStorage(s, StopStep(cfg, s, t, w, c))
    ensures SameJob(StopStep(cfg, s, t, w, c), t, w)
  {
    if w.kind.Shutdown? {
      GivenUpControl(cfg, s, t, w, h);
    } else {
      FailControl(cfg, s, t, w, h);
    }
  }

  /** The failed stop of a shutdown. */
  lemma GivenUpControl(cfg: Config, s: Sys, t: nat, w: Worker, h: Option<nat>)
    requires Beforehand(cfg, s, t, w, h) && w.StopW? && w.pc.Failing? && w.kind.Shutdown?
    ensures Afterwards(cfg, Done(s, t), t, h)
  {
  }

  lemma UploadControl(cfg: Config, hyp: Hypotheses, s: Sys, t: nat, w: Worker, c: Choice, h: Option<nat>)
    requires Beforehand(cfg, s, t, w, h) && w.StopW? && w.pc.Upload? && Enabled(hyp, s, Advance(t, c))
    ensures Afterwards(cfg, StopStep(cfg, s, t, w, c), t, h)
    ensures SameJob(StopStep(cfg, s, t, w, c), t, w)
  {
    var s' := StopStep(cfg, s, t, w, c);
    if c.Put? && c.outcome.Stored? {
      var m := s'.workers[t].pc.m;
      var v := VaultOf(s', w.id);
      assert WellFormed(c.tree) && Flat([], c.tree) == s'.dirs[w.id]
             && v.archives[m.generation] == ArchiveObject(WriteArchive(c.tree), c.bytes);
      assert h.Some? ==> ReadyToPublish(s', w.id, m, h.value);
    }
  }

  /** The head after a generation was completed. */
  function Next(h: Option<nat>): Option<nat> {
    if h.Some? then Some(h.value + 1) else None
  }

  lemma PublishControl(cfg: Config, s: Sys, t: nat, w: Worker, c: Choice, h: Option<nat>)
    requires Beforehand(cfg, s, t, w, h) && w.StopW? && w.pc.Publish? && c.Put?
    requires h.Some? && Lands(c.outcome) ==> BackedUp(StopStep(cfg, s, t, w, c), w.id)
    ensures Afterwards(cfg, StopStep(cfg, s, t, w, c), t, if Lands(c.outcome) then Next(h) else h)
    ensures var v := s.vaults[w.id := PutManifest(VaultOf(s, w.id), w.pc.m, c.outcome)];
            SameStorage(s.(vaults := v), StopStep(cfg, s, t, w, c))
    ensures SameJob(StopStep(cfg, s, t, w, c), t, w)
  {
  }

  /** Only the end of a stop takes the active pack away, so the head `h'` of the next one is free. */
  lemma FinishControl(cfg: Config, s: Sys, t: nat, w: Worker, c: Choice, h: Option<nat>, h': Option<nat>)
    requires Beforehand(cfg, s, t, w, h) && w.StopW? && w.pc.Finish?
    requires w.kind.Shutdown? && c.Expired? ==> h' == h
    ensures Afterwards(cfg, StopStep(cfg, s, t, w, c), t, h')
    ensures SameDisk(s, StopStep(cfg, s, t, w, c))
    ensures !w.kind.Switch? ==> t !in StopStep(cfg, s, t, w, c).workers
    ensures !w.kind.Switch? ==>
              StopStep(cfg, s, t, w, c).core == s.core || StopStep(cfg, s, t, w, c).core.state.phase.Idle?
  {
    match w.kind {
      case Switch(target) => SwitchedControl(cfg, s, t, w, h, h');
      case _ =>
        if w.kind.Shutdown? && c.Expired? {
          AbandonedControl(cfg, s, t, w, h);
        } else {
          IdledControl(cfg, s, t, w, h, h');
        }
    }
  }

  lemma SwitchedControl(cfg: Config, s: Sys, t: nat, w: Worker, h: Option<nat>, h': Option<nat>)
    requires Beforehand(cfg, s, t, w, h) && w.StopW? && w.pc.Finish? && w.kind.Switch?
    ensures var s' := s.(core := Save(s.core, Fresh(w.kind.target)));
            Afterwards(cfg, Goto(s', t, StartW(w.kind.target, false, Entered)), t, h')
  {
  }

  lemma IdledControl(cfg: Config, s: Sys, t: nat, w: Worker, h: Option<nat>, h': Option<nat>)
    requires Beforehand(cfg, s, t, w, h) && w.StopW? && w.pc.Finish?
    ensures Afterwards(cfg, Done(s.(core := Save(s.core, IDLE)), t), t, h')
  {
  }

  /** The stop of a shutdown that nobody waits for any more. */
  lemma AbandonedControl(cfg: Config, s: Sys, t: nat, w: Worker, h: Option<nat>)
    requires Beforehand(cfg, s, t, w, h) && w.StopW? && w.pc.Finish?
    ensures Afterwards(cfg, Done(s, t), t, h)
  {
  }

  lemma LoginControl(cfg: Config, s: Sys, id: PackId, h: Option<nat>, h': Option<nat>)
    requires Control(cfg, s, None, h) && s.workers == map[] && id != ""
    requires s.core.state.active != "" ==> h' == h
    ensures Afterwards(cfg, LoginStep(s, id), s.next, h')
    ensures SameDisk(s, LoginStep(s, id))
  {
  }

  /** A stop begins, or its entry check refuses. */
  lemma DrainControl(cfg: Config, s: Sys, entry: (Core, bool), kind: StopKind, h: Option<nat>)
    requires Control(cfg, s, None, h) && s.workers == map[]
    requires entry.1 ==>
               && entry.0 == Save(s.core, s.core.state.(phase := Draining))
               && !s.core.state.phase.Idle? && (s.core.state.phase.Ready? || s.core.process.Some?)
               && (kind.Switch? ==> kind.target != "" && kind.target != s.core.state.active)
               && (kind.IdleStop? ==> kind.captured == s.core.state.active)
    ensures Afterwards(cfg, BeginStep(s, entry, kind), s.next, h)
    ensures SameStorage(s, BeginStep(s, entry, kind))
  {
  }

  lemma BeginControl(cfg: Config, hyp: Hypotheses, s: Sys, a: Action, h: Option<nat>)
    requires Control(cfg, s, None, h) && s.workers == map[] && Timely(hyp) && Enabled(hyp, s, a)
    requires a.BeginSwitch? || a.BeginIdleStop? || a.BeginShutdown?
    ensures Afterwards(cfg, Apply(cfg, s, a), s.next, h)
    ensures SameStorage(s, Apply(cfg, s, a))
  {
    match a {
      case BeginSwitch(target) => DrainControl(cfg, s, DrainForSwitch(s.core, target), Switch(target), h);
      case BeginIdleStop(captured) => DrainControl(cfg, s, DrainWhenIdle(s.core), IdleStop(captured), h);
      case BeginShutdown => DrainControl(cfg, s, DrainForShutdown(s.core), Shutdown, h);
    }
  }

  /** A child dies while any goroutine is in flight. */
  lemma ExitControl(cfg: Config, s: Sys, pid: nat, w: Option<Worker>, h: Option<nat>)
    requires Control(cfg, s, w, h) && pid in s.live
    ensures Control(cfg, Apply(cfg, s, Exit(pid)), w, h)
  {
  }

  /** The exit of the registered child is observed. */
  lemma ObserveControl(cfg: Config, s: Sys, pid: nat, w: Option<Worker>, h: Option<nat>)
    requires Control(cfg, s, w, h) && pid !in s.live && s.core.process == Some(pid)
    ensures Control(cfg, Apply(cfg, s, Observe(pid)), w, h)
  {
  }

  /** A waiter whose child is no longer registered changes nothing. */
  lemma StaleObserveControl(cfg: Config, s: Sys, pid: nat, w: Option<Worker>, h: Option<nat>)
    requires Control(cfg, s, w, h) && s.core.process != Some(pid)
    ensures Control(cfg, Apply(cfg, s, Observe(pid)), w, h)
  {
    var s' := Apply(cfg, s, Observe(pid));
    assert forall id :: BackedUp(s', id) == BackedUp(s, id);
  }

  lemma WriteControl(cfg: Config, s: Sys, a: Action, w: Option<Worker>, h: Option<nat>)
    requires Control(cfg, s, w, h) && a.WriteWorld? && a.pid in s.live
    ensures Control(cfg, Apply(cfg, s, a), w, h)
  {
  }

  lemma CrashControl(cfg: Config, s: Sys, w: Option<Worker>, h: Option<nat>)
    requires Control(cfg, s, w, h)
    ensures Afterwards(cfg, CrashStep(s), s.next, h)
    ensures SameStorage(s, CrashStep(s))
  {
  }
}
