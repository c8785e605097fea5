/** Why each of the assumptions is needed: runs of the same step machine in which one of them is
    dropped and a guarantee fails. And what they do not exclude. */
module Traces {
  import opened Wrappers
  import opened Paths
  import opened Sections
  import opened Archive
  import opened Generations
  import opened Lifecycle
  import LifecycleTheorems
  import RoundTrip

  ghost predicate Reachable(cfg: Config, h: Hypotheses, s: Sys) {
    exists states, actions :: Run(cfg, h, states, actions) && states[|actions|] == s
  }

  lemma StartReachable(cfg: Config, h: Hypotheses)
    ensures Reachable(cfg, h, START)
  {
    var none: seq<Action> := [];
    assert Run(cfg, h, [START], none) && [START][|none|] == START;
  }

  /** One more step of a run. */
  lemma Extend(cfg: Config, h: Hypotheses, s: Sys, a: Action, s': Sys)
    requires Reachable(cfg, h, s) && Enabled(h, s, a) && s' == Apply(cfg, s, a)
    ensures Reachable(cfg, h, s')
  {
    var states, actions :| Run(cfg, h, states, actions) && states[|actions|] == s;
    RunExtends(cfg, h, states, actions, a, s');
    assert (states + [s'])[|actions + [a]|] == s';
  }

  lemma RunExtends(cfg: Config, h: Hypotheses, states: seq<Sys>, actions: seq<Action>, a: Action, s': Sys)
    requires Run(cfg, h, states, actions)
    requires Enabled(h, states[|actions|], a) && s' == Apply(cfg, states[|actions|], a)
    ensures Run(cfg, h, states + [s'], actions + [a])
  {
    var longer, more := states + [s'], actions + [a];
    forall i | 0 <= i < |more|
      ensures Enabled(h, longer[i], more[i]) && longer[i + 1] == Apply(cfg, longer[i], more[i])
    {
      if i < |actions| {
        assert longer[i] == states[i] && longer[i + 1] == states[i + 1] && more[i] == actions[i];
      }
    }
  }

  /** A settled state: the core in memory is the one on disk. */
  function Settled(phase: Phase, id: PackId, gen: nat, process: Option<nat>): Core {
    Core(State(phase, id, gen, false), State(phase, id, gen, false), process, false)
  }

  lemma NoBackups(id: PackId)
    ensures HeadGen(EMPTY, id) == 0
  {
    EmptySound(id);
  }

  // -------------------------------------------------------------- common segments

  /** One step of goroutine `t`, described by the function of its kind. */
  lemma StartMoves(cfg: Config, h: Hypotheses, s: Sys, t: nat, c: Choice, s': Sys)
    requires Reachable(cfg, h, s) && t in s.workers && s.workers[t].StartW?
    requires c in {Go, Fault} || (c.Edited? && IsDirectory(c.fs))
    requires s' == StartStep(cfg, s, t, s.workers[t], c)
    ensures Reachable(cfg, h, s')
  {
    Extend(cfg, h, s, Advance(t, c), s');
  }

  lemma LaunchStep(cfg: Config, s: Sys, t: nat, w: Worker, fs: Fs)
    requires w.StartW? && w.spc.Launch?
    ensures StartStep(cfg, s, t, w, Edited(fs)) ==
            Goto(SetDir(s, w.id, fs).(live := s.live[s.next := w.id], next := s.next + 1), t,
                 w.(spc := Registering(s.next)))
  {
  }

  lemma RegisterStep(cfg: Config, s: Sys, t: nat, w: Worker, pid: nat)
    requires w.StartW? && w.spc == Registering(pid) && s.core.state.active == w.id
    ensures StartStep(cfg, s, t, w, Go) ==
            Goto(s.(core := s.core.(process := Some(pid), expectedStop := false), waiters := s.waiters + {pid}),
                 t, w.(spc := Polling(pid)))
  {
  }

  lemma PollStep(cfg: Config, s: Sys, t: nat, w: Worker, pid: nat)
    requires w.StartW? && w.spc == Polling(pid) && s.core.state.active == w.id
    ensures StartStep(cfg, s, t, w, Go) == Done(s.(core := Save(s.core, s.core.state.(phase := Ready))), t)
  {
  }

  /** A start of a pack without backups gets as far as its child. */
  lemma StartsChild(cfg: Config, h: Hypotheses, s: Sys, t: nat, id: PackId, fs: Fs)
    requires Reachable(cfg, h, s) && !cfg.sizer && t < s.next && IsDirectory(fs)
    requires t in s.workers && s.workers[t] == StartW(id, false, Entered)
    requires HeadGen(VaultOf(s, id), id) == 0 && s.core.disk == s.core.state
    ensures Reachable(cfg, h, WithChild(s, t, id, fs))
  {
    var s1 := Goto(s, t, StartW(id, false, Probe));
    StartMoves(cfg, h, s, t, Go, s1);
    StartLaunches(cfg, h, s, s1, t, id);
    var s3 := Goto(s, t, StartW(id, false, Launch));
    var s4 := WithChild(s, t, id, fs);
    assert s3.workers[t := StartW(id, false, Registering(s.next))] == s4.workers;
    StartMoves(cfg, h, s3, t, Edited(fs), s4);
  }

  lemma StartLaunches(cfg: Config, h: Hypotheses, s: Sys, s1: Sys, t: nat, id: PackId)
    requires s1 == Goto(s, t, StartW(id, false, Probe)) && Reachable(cfg, h, s1)
    requires HeadGen(VaultOf(s, id), id) == 0 && s.core.disk == s.core.state
    ensures Reachable(cfg, h, Goto(s, t, StartW(id, false, Launch)))
  {
    var s2 := Goto(s, t, StartW(id, false, Prepare(false, 0, false)));
    assert s1.workers[t := StartW(id, false, Prepare(false, 0, false))] == s2.workers;
    StartMoves(cfg, h, s1, t, Go, s2);
    var s3 := Goto(s, t, StartW(id, false, Launch));
    assert s2.workers[t := StartW(id, false, Launch)] == s3.workers;
    StartMoves(cfg, h, s2, t, Go, s3);
  }

  function WithChild(s: Sys, t: nat, id: PackId, fs: Fs): Sys {
    s.(workers := s.workers[t := StartW(id, false, Registering(s.next))],
       live := s.live[s.next := id], next := s.next + 1,
       dirs := s.dirs[id := fs], held := s.held[id := fs])
  }

  /** A first login on an empty volume, up to the point where start polls its child. */
  lemma FirstChild(cfg: Config, h: Hypotheses, a: PackId, fs: Fs)
    requires !cfg.sizer && a != "" && IsDirectory(fs)
    ensures Reachable(cfg, h, PollingFirst(a, fs))
  {
    StartReachable(cfg, h);
    NoBackups(a);
    var s1 := START.(core := Settled(Loading, a, 0, None), workers := map[0 := StartW(a, false, Entered)], next := 1);
    Extend(cfg, h, START, Login(a), s1);
    StartsChild(cfg, h, s1, 0, a, fs);
    var s2 := WithChild(s1, 0, a, fs);
    assert s2.workers[0 := StartW(a, false, Polling(1))] == PollingFirst(a, fs).workers;
    assert s2.live == map[1 := a];
    StartMoves(cfg, h, s2, 0, Go, PollingFirst(a, fs));
  }

  function PollingFirst(a: PackId, fs: Fs): Sys {
    Sys(Settled(Loading, a, 0, Some(1)), map[0 := StartW(a, false, Polling(1))], map[1 := a], {1},
        map[a := fs], map[], map[a := fs], 2)
  }

  function ReadyFirst(a: PackId, fs: Fs): Sys {
    Sys(Settled(Ready, a, 0, Some(1)), map[], map[1 := a], {1}, map[a := fs], map[], map[a := fs], 2)
  }

  lemma FirstReady(cfg: Config, h: Hypotheses, a: PackId, fs: Fs)
    requires !cfg.sizer && a != "" && IsDirectory(fs)
    ensures Reachable(cfg, h, ReadyFirst(a, fs))
  {
    FirstChild(cfg, h, a, fs);
    assert PollingFirst(a, fs).workers - {0} == map[];
    Extend(cfg, h, PollingFirst(a, fs), Advance(0, Go), ReadyFirst(a, fs));
  }

  // ------------------------------------------------ a retry while a start is in flight

  const EAGER_RETRY := ASSUMED.(quietRetry := false)

  /** Without quiet retries two children of one pack can be live at once: a start still polling a
      dead child overwrites the phase, and the next login launches again beside a child that is
      not registered yet. */
  lemma EagerRetryTwoChildren(cfg: Config, a: PackId, fs: Fs) returns (s: Sys)
    requires !cfg.sizer && a != "" && IsDirectory(fs)
    ensures Reachable(cfg, EAGER_RETRY, s)
    ensures exists p, q :: p in s.live && q in s.live && p != q
  {
    FirstChild(cfg, EAGER_RETRY, a, fs);
    RetryBesidePolling(cfg, a, fs);
    NoBackups(a);
    StartsChild(cfg, EAGER_RETRY, Retrying(a, fs), 2, a, fs);
    s := TwoChildren(cfg, a, fs, WithChild(Retrying(a, fs), 2, a, fs));
  }

  /** The first child is gone; its start still polls, and a second one begins. */
  function Retrying(a: PackId, fs: Fs): Sys {
    PollingFirst(a, fs).(core := Settled(Loading, a, 0, None), live := map[], waiters := {}, next := 3,
                         workers := map[0 := StartW(a, false, Polling(1)), 2 := StartW(a, false, Entered)])
  }

  lemma RetryBesidePolling(cfg: Config, a: PackId, fs: Fs)
    requires a != "" && Reachable(cfg, EAGER_RETRY, PollingFirst(a, fs))
    ensures Reachable(cfg, EAGER_RETRY, Retrying(a, fs))
  {
    PollingDies(cfg, EAGER_RETRY, a, fs);
    var s2 := DeadWhilePolled(a, fs);
    assert s2.workers[2 := StartW(a, false, Entered)] == Retrying(a, fs).workers;
    Extend(cfg, EAGER_RETRY, s2, Login(a), Retrying(a, fs));
  }

  /** The exit of the first child is observed while its start still polls. */
  function DeadWhilePolled(a: PackId, fs: Fs): Sys {
    PollingFirst(a, fs).(core := Settled(Phase.Failed, a, 0, None), live := map[], waiters := {})
  }

  lemma PollingDies(cfg: Config, h: Hypotheses, a: PackId, fs: Fs)
    requires Reachable(cfg, h, PollingFirst(a, fs))
    ensures Reachable(cfg, h, DeadWhilePolled(a, fs))
  {
    var s0 := PollingFirst(a, fs);
    var s1 := s0.(live := map[]);
    assert s0.live - {1} == map[];
    Extend(cfg, h, s0, Exit(1), s1);
    assert s1.waiters - {1} == {};
    Extend(cfg, h, s1, Observe(1), DeadWhilePolled(a, fs));
  }

  lemma TwoChildren(cfg: Config, a: PackId, fs: Fs, s4: Sys) returns (s: Sys)
    requires !cfg.sizer && a != "" && IsDirectory(fs) && Reachable(cfg, EAGER_RETRY, s4)
    requires s4.core == Settled(Loading, a, 0, None) && s4.vaults == map[] && s4.live == map[3 := a] && s4.next == 4
    requires s4.workers == map[0 := StartW(a, false, Polling(1)), 2 := StartW(a, false, Registering(3))]
    ensures Reachable(cfg, EAGER_RETRY, s)
    ensures exists p, q :: p in s.live && q in s.live && p != q
  {
    var s6 := RetryBesideChild(cfg, a, s4);
    NoBackups(a);
    StartsChild(cfg, EAGER_RETRY, s6, 4, a, fs);
    s := WithChild(s6, 4, a, fs);
    assert 3 in s.live && 5 in s.live;
  }

  /** The first start gives up, and a third one begins beside the unregistered child. */
  lemma RetryBesideChild(cfg: Config, a: PackId, s4: Sys) returns (s6: Sys)
    requires a != "" && Reachable(cfg, EAGER_RETRY, s4)
    requires s4.core == Settled(Loading, a, 0, None) && s4.live == map[3 := a] && s4.next == 4
    requires s4.workers == map[0 := StartW(a, false, Polling(1)), 2 := StartW(a, false, Registering(3))]
    ensures Reachable(cfg, EAGER_RETRY, s6)
    ensures s6 == s4.(core := Settled(Loading, a, 0, None), next := 5,
                      workers := map[2 := StartW(a, false, Registering(3)), 4 := StartW(a, false, Entered)])
  {
    var s5 := s4.(core := Settled(Phase.Failed, a, 0, None), workers := map[2 := StartW(a, false, Registering(3))]);
    assert s4.workers - {0} == s5.workers && s4.live - {1} == s4.live;
    StartMoves(cfg, EAGER_RETRY, s4, 0, Fault, s5);
    s6 := s5.(core := Settled(Loading, a, 0, None), next := 5,
              workers := map[2 := StartW(a, false, Registering(3)), 4 := StartW(a, false, Entered)]);
    assert s5.workers[4 := StartW(a, false, Entered)] == s6.workers;
    Extend(cfg, EAGER_RETRY, s5, Login(a), s6);
  }

  // ------------------------------------------------------ a poll overtaken by an exit

  /** Ready, with no child left and nobody to notice. */
  function DeadReady(a: PackId, fs: Fs): Sys {
    Sys(Settled(Ready, a, 0, None), map[], map[], {}, map[a := fs], map[], map[a := fs], 2)
  }

  /** Under all the assumptions a pack can become ready after its server has died: the exit is observed
      between the answer to the last poll and the section that records it. Every login for the pack
      is then told that it is ready. */
  lemma ReadyAfterDeath(cfg: Config, a: PackId, fs: Fs)
    requires !cfg.sizer && a != "" && IsDirectory(fs)
    ensures var s := DeadReady(a, fs);
            && Reachable(cfg, ASSUMED, s) && s.live == map[] && s.core.process.None?
            && forall longEmpty :: Answer(s.core, a, longEmpty) == AlreadyReady
  {
    FirstChild(cfg, ASSUMED, a, fs);
    PollingDies(cfg, ASSUMED, a, fs);
    var s2 := DeadWhilePolled(a, fs);
    assert s2.workers - {0} == map[];
    Extend(cfg, ASSUMED, s2, Advance(0, Go), DeadReady(a, fs));
  }

  // ------------------------------------------------------------- segments of a stop

  lemma StopMoves(cfg: Config, h: Hypotheses, s: Sys, t: nat, c: Choice, s': Sys)
    requires Reachable(cfg, h, s) && t in s.workers && s.workers[t].StopW?
    requires c.Put? && Uploads(s.workers[t]) && s.workers[t].id in s.dirs ==>
               WellFormed(c.tree) && Flat([], c.tree) == s.dirs[s.workers[t].id]
    requires c in {Go, Fault} || c.Put?
    requires s' == StopStep(cfg, s, t, s.workers[t], c)
    ensures Reachable(cfg, h, s')
  {
    Extend(cfg, h, s, Advance(t, c), s');
  }

  /** save-all and stop are sent. */
  lemma StopCommands(cfg: Config, h: Hypotheses, s: Sys, t: nat, kind: StopKind, id: PackId, p: nat)
    requires Reachable(cfg, h, s) && t in s.workers && s.workers[t] == StopW(kind, id, SaveAll(p))
    ensures Reachable(cfg, h, Goto(s.(core := ExpectStop(s.core, true)), t, StopW(kind, id, Await(p))))
  {
    var s1 := Goto(s.(core := ExpectStop(s.core, true)), t, StopW(kind, id, StopCommand(p)));
    StopMoves(cfg, h, s, t, Go, s1);
    var s2 := Goto(s.(core := ExpectStop(s.core, true)), t, StopW(kind, id, Await(p)));
    assert s1.workers[t := StopW(kind, id, Await(p))] == s2.workers;
    StopMoves(cfg, h, s1, t, Go, s2);
  }

  /** The child is gone; the stop presents the recorded generation. */
  lemma StopReads(cfg: Config, h: Hypotheses, s: Sys, t: nat, kind: StopKind, id: PackId, p: nat)
    requires Reachable(cfg, h, s) && t in s.workers && s.workers[t] == StopW(kind, id, Await(p))
    requires s.core.process.None?
    ensures Reachable(cfg, h, Goto(s, t, StopW(kind, id, CheckHead(s.core.state.generation))))
  {
    var s1 := Goto(s, t, StopW(kind, id, ReadGeneration));
    StopMoves(cfg, h, s, t, Go, s1);
    var s2 := Goto(s, t, StopW(kind, id, CheckHead(s.core.state.generation)));
    GotoTwice(s, t, s1.workers[t], s2.workers[t]);
    StopMoves(cfg, h, s1, t, Go, s2);
  }

  /** Commit finds the generation it was given. */
  lemma StopChecks(cfg: Config, h: Hypotheses, s: Sys, t: nat, kind: StopKind, id: PackId, p: nat)
    requires Reachable(cfg, h, s) && t in s.workers && s.workers[t] == StopW(kind, id, Await(p))
    requires s.core.process.None? && s.core.state.generation == HeadGen(VaultOf(s, id), id)
    ensures Reachable(cfg, h, Goto(s, t, StopW(kind, id, Upload(s.core.state.generation + 1))))
  {
    StopReads(cfg, h, s, t, kind, id, p);
    HeadChecked(cfg, h, s, Goto(s, t, StopW(kind, id, CheckHead(s.core.state.generation))), t, kind, id);
  }

  lemma HeadChecked(cfg: Config, h: Hypotheses, s: Sys, s2: Sys, t: nat, kind: StopKind, id: PackId)
    requires s2 == Goto(s, t, StopW(kind, id, CheckHead(s.core.state.generation))) && Reachable(cfg, h, s2)
    requires s.core.state.generation == HeadGen(VaultOf(s, id), id)
    ensures Reachable(cfg, h, Goto(s, t, StopW(kind, id, Upload(s.core.state.generation + 1))))
  {
    var s3 := Goto(s, t, StopW(kind, id, Upload(s.core.state.generation + 1)));
    GotoTwice(s, t, s2.workers[t], s3.workers[t]);
    StopMoves(cfg, h, s2, t, Go, s3);
  }

  lemma GotoTwice(s: Sys, t: nat, w: Worker, w': Worker)
    ensures Goto(Goto(s, t, w), t, w') == Goto(s, t, w')
  {
    assert s.workers[t := w][t := w'] == s.workers[t := w'];
  }

  function FirstArchive(f: Forest): Object {
    ArchiveObject(WriteArchive(f), 0)
  }

  function FirstUpload(f: Forest): Vault {
    PutArchive(EMPTY, 1, FirstArchive(f), Stored)
  }

  function FirstBackup(id: PackId, f: Forest): Vault {
    PutManifest(FirstUpload(f), ManifestOf(id, 1, FirstArchive(f)), Stored)
  }

  lemma FirstBackupHead(id: PackId, f: Forest)
    ensures HeadGen(FirstBackup(id, f), id) == 1 && Verified(FirstBackup(id, f), id, ManifestOf(id, 1, FirstArchive(f)))
  {
    EmptySound(id);
    ArchivePutHarmless(EMPTY, id, FirstArchive(f), Stored);
    ManifestPutDecides(FirstUpload(f), id, ManifestOf(id, 1, FirstArchive(f)), Stored);
  }

  /** A first backup is uploaded, published, verified and recorded. */
  lemma StopCommits(cfg: Config, h: Hypotheses, s: Sys, t: nat, kind: StopKind, id: PackId, f: Forest)
    requires Reachable(cfg, h, s) && t in s.workers && s.workers[t] == StopW(kind, id, Upload(1))
    requires id in s.dirs && WellFormed(f) && Flat([], f) == s.dirs[id] && id !in s.vaults
    ensures Reachable(cfg, h, Backed(cfg, s, t, kind, id, f))
  {
    var m := ManifestOf(id, 1, FirstArchive(f));
    var s1 := Goto(s.(vaults := s.vaults[id := FirstUpload(f)]), t, StopW(kind, id, Publish(m)));
    StopMoves(cfg, h, s, t, Put(Stored, f, 0), s1);
    StopPublishes(cfg, h, s, s1, t, kind, id, f);
  }

  lemma StopPublishes(cfg: Config, h: Hypotheses, s: Sys, s1: Sys, t: nat, kind: StopKind, id: PackId, f: Forest)
    requires s1 == Goto(s.(vaults := s.vaults[id := FirstUpload(f)]), t,
                        StopW(kind, id, Publish(ManifestOf(id, 1, FirstArchive(f)))))
    requires Reachable(cfg, h, s1)
    ensures Reachable(cfg, h, Backed(cfg, s, t, kind, id, f))
  {
    var m := ManifestOf(id, 1, FirstArchive(f));
    var s2 := Goto(s.(vaults := s.vaults[id := FirstBackup(id, f)]), t, StopW(kind, id, Verify(m)));
    assert s1.workers[t := StopW(kind, id, Verify(m))] == s2.workers;
    assert s1.vaults[id := FirstBackup(id, f)] == s2.vaults;
    StopMoves(cfg, h, s1, t, Put(Stored, f, 0), s2);
    StopVerifies(cfg, h, s, s2, t, kind, id, f);
  }

  lemma StopVerifies(cfg: Config, h: Hypotheses, s: Sys, s2: Sys, t: nat, kind: StopKind, id: PackId, f: Forest)
    requires s2 == Goto(s.(vaults := s.vaults[id := FirstBackup(id, f)]), t,
                        StopW(kind, id, Verify(ManifestOf(id, 1, FirstArchive(f)))))
    requires Reachable(cfg, h, s2)
    ensures Reachable(cfg, h, Backed(cfg, s, t, kind, id, f))
  {
    FirstBackupHead(id, f);
    var s3 := Goto(s2, t, StopW(kind, id, Record(1)));
    StopMoves(cfg, h, s2, t, Go, s3);
    GotoTwice(s.(vaults := s.vaults[id := FirstBackup(id, f)]), t, s2.workers[t], s3.workers[t]);
    StopRecords(cfg, h, s, s3, t, kind, id, f);
  }

  lemma StopRecords(cfg: Config, h: Hypotheses, s: Sys, s3: Sys, t: nat, kind: StopKind, id: PackId, f: Forest)
    requires s3 == Goto(s.(vaults := s.vaults[id := FirstBackup(id, f)]), t, StopW(kind, id, Record(1)))
    requires Reachable(cfg, h, s3)
    ensures Reachable(cfg, h, Backed(cfg, s, t, kind, id, f))
  {
    var s4 := Backed(cfg, s, t, kind, id, f);
    assert s3.workers[t := s4.workers[t]] == s4.workers;
    StopMoves(cfg, h, s3, t, Go, s4);
  }

  function Backed(cfg: Config, s: Sys, t: nat, kind: StopKind, id: PackId, f: Forest): Sys {
    Goto(s.(vaults := s.vaults[id := FirstBackup(id, f)], core := CommitRecorded(s.core, 1)), t,
         StopW(kind, id, if cfg.evict then Evict else Finish))
  }

  // ------------------------------------------------------- a shutdown during a switch

  const EAGER_SHUTDOWN := ASSUMED.(quietShutdown := false)

  function Saving2(a: PackId, process: Option<nat>, expected: bool): Core {
    Core(State(Saving, a, 0, false), State(Saving, a, 0, false), process, expected)
  }

  function Stopping(a: PackId, b: PackId, fs: Fs, core: Core, live: map<nat, PackId>, waiters: set<nat>,
                    first: StopPc, second: StopPc): Sys {
    Sys(core, map[2 := StopW(Switch(b), a, first), 3 := StopW(Shutdown, a, second)], live, waiters,
        map[a := fs], map[], map[a := fs], 4)
  }

  lemma SetFirst(a: PackId, b: PackId, fs: Fs, core: Core, live: map<nat, PackId>, waiters: set<nat>,
                 first: StopPc, second: StopPc, core': Core, next: StopPc)
    ensures Goto(Stopping(a, b, fs, core, live, waiters, first, second).(core := core'), 2, StopW(Switch(b), a, next))
            == Stopping(a, b, fs, core', live, waiters, next, second)
  {
    assert map[2 := StopW(Switch(b), a, first), 3 := StopW(Shutdown, a, second)][2 := StopW(Switch(b), a, next)]
           == map[2 := StopW(Switch(b), a, next), 3 := StopW(Shutdown, a, second)];
  }

  lemma SetSecond(a: PackId, b: PackId, fs: Fs, core: Core, live: map<nat, PackId>, waiters: set<nat>,
                  first: StopPc, second: StopPc, core': Core, next: StopPc)
    ensures Goto(Stopping(a, b, fs, core, live, waiters, first, second).(core := core'), 3, StopW(Shutdown, a, next))
            == Stopping(a, b, fs, core', live, waiters, first, next)
  {
    assert map[2 := StopW(Switch(b), a, first), 3 := StopW(Shutdown, a, second)][3 := StopW(Shutdown, a, next)]
           == map[2 := StopW(Switch(b), a, first), 3 := StopW(Shutdown, a, next)];
  }

  /** A stop alone in flight. */
  function Leaving(a: PackId, kind: StopKind, fs: Fs, core: Core, live: map<nat, PackId>, waiters: set<nat>,
                   pc: StopPc): Sys {
    Sys(core, map[2 := StopW(kind, a, pc)], live, waiters, map[a := fs], map[], map[a := fs], 3)
  }

  /** A switch away from pack `a`, or its idle stop. */
  predicate Leaves(kind: StopKind, a: PackId) {
    a != "" && (kind == IdleStop(a) || (kind.Switch? && kind.target != "" && kind.target != a))
  }

  lemma StopEnters(cfg: Config, h: Hypotheses, a: PackId, kind: StopKind, fs: Fs)
    requires !cfg.sizer && Leaves(kind, a) && IsDirectory(fs)
    ensures Reachable(cfg, h, Leaving(a, kind, fs, Saving2(a, Some(1), false), map[1 := a], {1}, SaveAll(1)))
  {
    FirstReady(cfg, h, a, fs);
    var s0 := ReadyFirst(a, fs);
    var s1 := s0.(core := Settled(Draining, a, 0, Some(1)), workers := map[2 := StopW(kind, "", Drained)], next := 3);
    assert s0.workers[2 := StopW(kind, "", Drained)] == s1.workers;
    Extend(cfg, h, s0, if kind.Switch? then BeginSwitch(kind.target) else BeginIdleStop(a), s1);
    var s2 := Leaving(a, kind, fs, Saving2(a, Some(1), false), map[1 := a], {1}, SaveAll(1));
    assert s1.workers[2 := StopW(kind, a, SaveAll(1))] == s2.workers;
    StopMoves(cfg, h, s1, 2, Go, s2);
  }

  /** Both stops have read the phase and are about to save the world. */
  lemma BothEnter(cfg: Config, a: PackId, b: PackId, fs: Fs)
    requires !cfg.sizer && a != "" && b != "" && a != b && IsDirectory(fs)
    ensures Reachable(cfg, EAGER_SHUTDOWN,
                      Stopping(a, b, fs, Saving2(a, Some(1), false), map[1 := a], {1}, SaveAll(1), SaveAll(1)))
  {
    StopEnters(cfg, EAGER_SHUTDOWN, a, Switch(b), fs);
    ShutdownEnters(cfg, a, b, fs, Leaving(a, Switch(b), fs, Saving2(a, Some(1), false), map[1 := a], {1}, SaveAll(1)));
  }

  lemma ShutdownEnters(cfg: Config, a: PackId, b: PackId, fs: Fs, s2: Sys)
    requires Reachable(cfg, EAGER_SHUTDOWN, s2)
    requires s2 == Leaving(a, Switch(b), fs, Saving2(a, Some(1), false), map[1 := a], {1}, SaveAll(1))
    ensures Reachable(cfg, EAGER_SHUTDOWN,
                      Stopping(a, b, fs, Saving2(a, Some(1), false), map[1 := a], {1}, SaveAll(1), SaveAll(1)))
  {
    var h := EAGER_SHUTDOWN;
    var s3 := s2.(core := Settled(Draining, a, 0, Some(1)), next := 4,
                  workers := map[2 := StopW(Switch(b), a, SaveAll(1)), 3 := StopW(Shutdown, "", Drained)]);
    assert s2.workers[3 := StopW(Shutdown, "", Drained)] == s3.workers;
    Extend(cfg, h, s2, BeginShutdown, s3);
    var s4 := Stopping(a, b, fs, Saving2(a, Some(1), false), map[1 := a], {1}, SaveAll(1), SaveAll(1));
    assert s3.workers[3 := StopW(Shutdown, a, SaveAll(1))] == s4.workers;
    StopMoves(cfg, h, s3, 3, Go, s4);
  }

  /** Both send their commands, the child exits once, and both see it gone. */
  lemma BothUpload(cfg: Config, a: PackId, b: PackId, fs: Fs)
    requires !cfg.sizer && a != "" && b != "" && a != b && IsDirectory(fs)
    ensures Reachable(cfg, EAGER_SHUTDOWN, Stopping(a, b, fs, Saving2(a, None, false), map[], {}, Upload(1), Upload(1)))
  {
    var h := EAGER_SHUTDOWN;
    var on, off, gone := Saving2(a, Some(1), true), Saving2(a, Some(1), false), Saving2(a, None, false);
    BothEnter(cfg, a, b, fs);
    var s0 := Stopping(a, b, fs, off, map[1 := a], {1}, SaveAll(1), SaveAll(1));
    StopCommands(cfg, h, s0, 2, Switch(b), a, 1);
    SetFirst(a, b, fs, off, map[1 := a], {1}, SaveAll(1), SaveAll(1), on, Await(1));
    var s1 := Stopping(a, b, fs, on, map[1 := a], {1}, Await(1), SaveAll(1));
    StopCommands(cfg, h, s1, 3, Shutdown, a, 1);
    SetSecond(a, b, fs, on, map[1 := a], {1}, Await(1), SaveAll(1), on, Await(1));
    ChildGoes(cfg, a, b, fs);
    var s3 := Stopping(a, b, fs, gone, map[], {}, Await(1), Await(1));
    NoBackups(a);
    StopChecks(cfg, h, s3, 2, Switch(b), a, 1);
    SetFirst(a, b, fs, gone, map[], {}, Await(1), Await(1), gone, Upload(1));
    var s4 := Stopping(a, b, fs, gone, map[], {}, Upload(1), Await(1));
    StopChecks(cfg, h, s4, 3, Shutdown, a, 1);
    SetSecond(a, b, fs, gone, map[], {}, Upload(1), Await(1), gone, Upload(1));
  }

  lemma ChildGoes(cfg: Config, a: PackId, b: PackId, fs: Fs)
    requires Reachable(cfg, EAGER_SHUTDOWN,
                       Stopping(a, b, fs, Saving2(a, Some(1), true), map[1 := a], {1}, Await(1), Await(1)))
    ensures Reachable(cfg, EAGER_SHUTDOWN, Stopping(a, b, fs, Saving2(a, None, false), map[], {}, Await(1), Await(1)))
  {
    var h := EAGER_SHUTDOWN;
    var s0 := Stopping(a, b, fs, Saving2(a, Some(1), true), map[1 := a], {1}, Await(1), Await(1));
    var s1 := s0.(live := map[]);
    assert s0.live - {1} == map[];
    Extend(cfg, h, s0, Exit(1), s1);
    var s2 := Stopping(a, b, fs, Saving2(a, None, false), map[], {}, Await(1), Await(1));
    assert s1.waiters - {1} == {};
    Extend(cfg, h, s1, Observe(1), s2);
  }

  /** Without quiet shutdowns a world can be lost: the switch backs it up and evicts it, and the
      upload of the second stop, whose source is gone, tears the only archive. */
  lemma EagerShutdownLosesWorld(cfg: Config, a: PackId, b: PackId, f: Forest) returns (s: Sys)
    requires !cfg.sizer && cfg.evict && a != "" && b != "" && a != b && WellFormed(f)
    ensures Reachable(cfg, EAGER_SHUTDOWN, s)
    ensures a in s.held && s.held[a] == Flat([], f)
    ensures a !in s.dirs && HeadGen(VaultOf(s, a), a) == 0
  {
    var h := EAGER_SHUTDOWN;
    var fs := Flat([], f);
    assert IsDirectory(fs);
    BothUpload(cfg, a, b, fs);
    var s0 := Stopping(a, b, fs, Saving2(a, None, false), map[], {}, Upload(1), Upload(1));
    StopCommits(cfg, h, s0, 2, Switch(b), a, f);
    var s1 := Backed(cfg, s0, 2, Switch(b), a, f);
    var s2 := Goto(s1.(dirs := map[]), 2, StopW(Switch(b), a, Finish));
    assert s1.dirs - {a} == map[];
    StopMoves(cfg, h, s1, 2, Go, s2);
    s := TornAfterEviction(cfg, a, b, f, s2);
  }

  lemma TornAfterEviction(cfg: Config, a: PackId, b: PackId, f: Forest, s2: Sys) returns (s: Sys)
    requires Reachable(cfg, EAGER_SHUTDOWN, s2) && WellFormed(f)
    requires s2.dirs == map[] && s2.held == map[a := Flat([], f)] && VaultOf(s2, a) == FirstBackup(a, f)
    requires 3 in s2.workers && s2.workers[3] == StopW(Shutdown, a, Upload(1))
    ensures Reachable(cfg, EAGER_SHUTDOWN, s)
    ensures a in s.held && s.held[a] == Flat([], f)
    ensures a !in s.dirs && HeadGen(VaultOf(s, a), a) == 0
  {
    var torn := PutOutcome.Failed(Torn([]));
    var v := PutArchive(FirstBackup(a, f), 1, Junk([]), torn);
    s := Goto(s2.(vaults := s2.vaults[a := v]), 3, StopW(Shutdown, a, Unrecorded));
    StopMoves(cfg, EAGER_SHUTDOWN, s2, 3, Put(torn, f, 0), s);
    TornFirst(a, f);
  }

  lemma TornFirst(id: PackId, f: Forest)
    ensures HeadGen(PutArchive(FirstBackup(id, f), 1, Junk([]), PutOutcome.Failed(Torn([]))), id) == 0
  {
    var v := PutArchive(FirstBackup(id, f), 1, Junk([]), PutOutcome.Failed(Torn([])));
    assert forall n: nat :: !Complete(v, id, n);
    HeadUnique(v, id, 0);
  }

  // --------------------------------------------------- an idle stop decided for another pack

  const LATE_IDLE := ASSUMED.(promptIdle := false)

  lemma StopUploads(cfg: Config, h: Hypotheses, a: PackId, kind: StopKind, fs: Fs)
    requires !cfg.sizer && Leaves(kind, a) && IsDirectory(fs)
    ensures Reachable(cfg, h, Leaving(a, kind, fs, Saving2(a, None, false), map[], {}, Upload(1)))
  {
    StopEnters(cfg, h, a, kind, fs);
    var s0 := Leaving(a, kind, fs, Saving2(a, Some(1), false), map[1 := a], {1}, SaveAll(1));
    StopCommands(cfg, h, s0, 2, kind, a, 1);
    var s1 := Leaving(a, kind, fs, Saving2(a, Some(1), true), map[1 := a], {1}, Await(1));
    assert s0.workers[2 := StopW(kind, a, Await(1))] == s1.workers;
    var s2 := s1.(live := map[]);
    assert s1.live - {1} == map[];
    Extend(cfg, h, s1, Exit(1), s2);
    var s3 := Leaving(a, kind, fs, Saving2(a, None, false), map[], {}, Await(1));
    assert s2.waiters - {1} == {};
    Extend(cfg, h, s2, Observe(1), s3);
    StopPresents(cfg, h, a, kind, fs);
  }

  lemma StopPresents(cfg: Config, h: Hypotheses, a: PackId, kind: StopKind, fs: Fs)
    requires Reachable(cfg, h, Leaving(a, kind, fs, Saving2(a, None, false), map[], {}, Await(1)))
    ensures Reachable(cfg, h, Leaving(a, kind, fs, Saving2(a, None, false), map[], {}, Upload(1)))
  {
    var s3 := Leaving(a, kind, fs, Saving2(a, None, false), map[], {}, Await(1));
    NoBackups(a);
    StopChecks(cfg, h, s3, 2, kind, a, 1);
    assert s3.workers[2 := StopW(kind, a, Upload(1))] == map[2 := StopW(kind, a, Upload(1))];
  }

  /** The pack is backed up, its directory still holds `fs`, and the stop is about to evict it. */
  function Evicting(a: PackId, kind: StopKind, f: Forest, fs: Fs): Sys {
    Leaving(a, kind, Flat([], f), CommitRecorded(Saving2(a, None, false), 1), map[], {}, Evict)
    .(vaults := map[a := FirstBackup(a, f)], dirs := map[a := fs])
  }

  lemma StopBacksUp(cfg: Config, h: Hypotheses, a: PackId, kind: StopKind, f: Forest)
    requires !cfg.sizer && cfg.evict && Leaves(kind, a) && WellFormed(f)
    ensures Reachable(cfg, h, Evicting(a, kind, f, Flat([], f)))
  {
    var fs := Flat([], f);
    assert IsDirectory(fs);
    StopUploads(cfg, h, a, kind, fs);
    var s0 := Leaving(a, kind, fs, Saving2(a, None, false), map[], {}, Upload(1));
    StopCommits(cfg, h, s0, 2, kind, a, f);
    EvictingIs(cfg, s0, a, kind, f);
  }

  lemma EvictingIs(cfg: Config, s0: Sys, a: PackId, kind: StopKind, f: Forest)
    requires cfg.evict && s0 == Leaving(a, kind, Flat([], f), Saving2(a, None, false), map[], {}, Upload(1))
    ensures Backed(cfg, s0, 2, kind, a, f) == Evicting(a, kind, f, Flat([], f))
  {
    assert s0.workers[2 := StopW(kind, a, Evict)] == map[2 := StopW(kind, a, Evict)];
    assert s0.vaults[a := FirstBackup(a, f)] == map[a := FirstBackup(a, f)];
  }

  /** The pack is backed up and evicted. */
  function Evicted(a: PackId, kind: StopKind, f: Forest): Sys {
    Evicting(a, kind, f, map[]).(dirs := map[], workers := map[2 := StopW(kind, a, Finish)])
  }

  lemma StopEvicts(cfg: Config, h: Hypotheses, a: PackId, kind: StopKind, f: Forest)
    requires !cfg.sizer && cfg.evict && Leaves(kind, a) && WellFormed(f)
    ensures Reachable(cfg, h, Evicted(a, kind, f))
  {
    StopBacksUp(cfg, h, a, kind, f);
    var s1 := Evicting(a, kind, f, Flat([], f));
    assert s1.dirs - {a} == map[];
    assert s1.workers[2 := StopW(kind, a, Finish)] == map[2 := StopW(kind, a, Finish)];
    StopMoves(cfg, h, s1, 2, Go, Evicted(a, kind, f));
  }

  /** The first pack is backed up and evicted, and the second is about to start. */
  function Switched(a: PackId, b: PackId, f: Forest): Sys {
    Sys(Settled(Loading, b, 0, None), map[2 := StartW(b, false, Entered)], map[], {}, map[],
        map[a := FirstBackup(a, f)], map[a := Flat([], f)], 3)
  }

  lemma SwitchCompletes(cfg: Config, h: Hypotheses, a: PackId, b: PackId, f: Forest)
    requires !cfg.sizer && cfg.evict && a != "" && b != "" && a != b && WellFormed(f)
    ensures Reachable(cfg, h, Switched(a, b, f))
  {
    StopEvicts(cfg, h, a, Switch(b), f);
    SwitchFinishes(cfg, h, a, b, f, Evicted(a, Switch(b), f));
  }

  lemma SwitchFinishes(cfg: Config, h: Hypotheses, a: PackId, b: PackId, f: Forest, s2: Sys)
    requires Reachable(cfg, h, s2) && s2.workers == map[2 := StopW(Switch(b), a, Finish)]
    requires s2 == Switched(a, b, f).(core := s2.core, workers := s2.workers)
    requires s2.core.process.None? && !s2.core.expectedStop
    ensures Reachable(cfg, h, Switched(a, b, f))
  {
    var s3 := Switched(a, b, f);
    assert s2.workers[2 := StartW(b, false, Entered)] == s3.workers;
    StopMoves(cfg, h, s2, 2, Go, s3);
  }

  /** The second pack is ready. */
  function ReadySecond(a: PackId, b: PackId, f: Forest, fs: Fs): Sys {
    Sys(Settled(Ready, b, 0, Some(3)), map[], map[3 := b], {3}, map[b := fs],
        map[a := FirstBackup(a, f)], map[a := Flat([], f), b := fs], 4)
  }

  lemma SecondReady(cfg: Config, h: Hypotheses, a: PackId, b: PackId, f: Forest, fs: Fs)
    requires !cfg.sizer && cfg.evict && a != "" && b != "" && a != b && WellFormed(f) && IsDirectory(fs)
    ensures Reachable(cfg, h, ReadySecond(a, b, f, fs))
  {
    SwitchCompletes(cfg, h, a, b, f);
    NoBackups(b);
    var s0 := Switched(a, b, f);
    StartsChild(cfg, h, s0, 2, b, fs);
    SecondPolls(cfg, h, a, b, f, fs, WithChild(s0, 2, b, fs));
  }

  lemma SecondPolls(cfg: Config, h: Hypotheses, a: PackId, b: PackId, f: Forest, fs: Fs, s1: Sys)
    requires s1 == WithChild(Switched(a, b, f), 2, b, fs) && Reachable(cfg, h, s1)
    ensures Reachable(cfg, h, ReadySecond(a, b, f, fs))
  {
    var s3 := ReadySecond(a, b, f, fs);
    var s2 := s3.(core := Settled(Loading, b, 0, Some(3)), workers := map[2 := StartW(b, false, Polling(3))]);
    assert s1.workers[2 := StartW(b, false, Polling(3))] == s2.workers;
    assert s1.live == s2.live && s1.dirs == s2.dirs && s1.held == s2.held;
    StartMoves(cfg, h, s1, 2, Go, s2);
    assert s2.workers - {2} == map[];
    StartMoves(cfg, h, s2, 2, Go, s3);
  }

  /** Without prompt idle stops the active pack can change back without a backup: a tick captures
      the first pack's ID, the switch to the second completes, and the idle stop that then runs
      against the second pack fails and records the first as the active one. The second is left
      running under the first one's name, with its only copy on the disk. */
  lemma LateIdleStopMisfiles(cfg: Config, a: PackId, b: PackId, f: Forest, fs: Fs) returns (s: Sys)
    requires !cfg.sizer && cfg.evict && a != "" && b != "" && a != b && WellFormed(f) && IsDirectory(fs)
    ensures Reachable(cfg, LATE_IDLE, s)
    ensures s.core.state.active == a && s.core.state.phase == Phase.Failed
    ensures exists p :: p in s.live && s.live[p] == b
    ensures b in s.dirs && a !in s.dirs && HeadGen(VaultOf(s, b), b) == 0
  {
    var h := LATE_IDLE;
    SecondReady(cfg, h, a, b, f, fs);
    var s0 := ReadySecond(a, b, f, fs);
    var s1 := s0.(core := Settled(Draining, b, 0, Some(3)), next := 5,
                  workers := map[4 := StopW(IdleStop(a), "", Drained)]);
    assert s0.workers[4 := StopW(IdleStop(a), "", Drained)] == s1.workers;
    Extend(cfg, h, s0, BeginIdleStop(a), s1);
    var s2 := s1.(core := Settled(Saving, b, 0, Some(3)), workers := map[4 := StopW(IdleStop(a), b, SaveAll(3))]);
    assert s1.workers[4 := StopW(IdleStop(a), b, SaveAll(3))] == s2.workers;
    StopMoves(cfg, h, s1, 4, Go, s2);
    s := StopMisfiles(cfg, a, b, s2);
    NoBackups(b);
    assert 3 in s.live;
  }

  lemma StopMisfiles(cfg: Config, a: PackId, b: PackId, s2: Sys) returns (s: Sys)
    requires Reachable(cfg, LATE_IDLE, s2) && s2.core == Settled(Saving, b, 0, Some(3))
    requires s2.workers == map[4 := StopW(IdleStop(a), b, SaveAll(3))]
    ensures Reachable(cfg, LATE_IDLE, s)
    ensures s == s2.(core := Settled(Phase.Failed, a, 0, Some(3)), workers := map[])
  {
    var s3 := s2.(workers := map[4 := StopW(IdleStop(a), b, Failing)]);
    assert s2.workers[4 := StopW(IdleStop(a), b, Failing)] == s3.workers;
    StopMoves(cfg, LATE_IDLE, s2, 4, Fault, s3);
    s := s2.(core := Settled(Phase.Failed, a, 0, Some(3)), workers := map[]);
    assert s3.workers - {4} == map[];
    StopMoves(cfg, LATE_IDLE, s3, 4, Go, s);
  }

  // ------------------------------------------------------------- an unreadable store

  /** The manager's fields with a backup pending from an unreadable head. */
  function Pending(phase: Phase, id: PackId, process: Option<nat>, expected: bool): Core {
    Core(State(phase, id, 0, true), State(phase, id, 0, true), process, expected)
  }

  /** A state in which the first generation is complete but not recorded. */
  function Unread(a: PackId, f: Forest, core: Core, workers: map<nat, Worker>, live: map<nat, PackId>,
                  waiters: set<nat>, next: nat): Sys {
    Sys(core, workers, live, waiters, map[a := Flat([], f)], map[a := FirstBackup(a, f)], map[a := Flat([], f)], next)
  }

  /** The stop that presents the empty store although the first generation is complete. */
  function Conflicting(a: PackId, f: Forest): Sys {
    Unread(a, f, Pending(Saving, a, None, false), map[5 := StopW(IdleStop(a), a, CheckHead(0))], map[], {}, 6)
  }

  /** Under all the assumptions, a stop can present a generation that is not the head while a backup
      is pending: the machine stops between the manifest upload and the saved state, the recovering
      start cannot read the head and goes on to a ready server, and the stop that follows is refused
      as a conflict. */
  lemma UnreadableHeadConflicts(cfg: Config, a: PackId, b: PackId, f: Forest)
    requires !cfg.sizer && a != "" && b != "" && a != b && WellFormed(f)
    ensures var s := Conflicting(a, f);
            && Reachable(cfg, ASSUMED, s) && s.core.state.pending && HeadGen(VaultOf(s, a), a) == 1
            && Apply(cfg, s, Advance(5, Go)).workers == map[5 := StopW(IdleStop(a), a, Unrecorded)]
  {
    assert IsDirectory(Flat([], f));
    CrashAfterPublish(cfg, a, b, f);
    ProbeUnread(cfg, a, f);
    ReadyUnread(cfg, a, f);
    StopUnread(cfg, a, f);
    FirstBackupHead(a, f);
    ConflictStep(cfg, a, f);
  }

  lemma ConflictStep(cfg: Config, a: PackId, f: Forest)
    requires HeadGen(FirstBackup(a, f), a) == 1
    ensures Apply(cfg, Conflicting(a, f), Advance(5, Go)).workers == map[5 := StopW(IdleStop(a), a, Unrecorded)]
  {
    var s := Conflicting(a, f);
    assert s.workers[5 := StopW(IdleStop(a), a, Unrecorded)] == map[5 := StopW(IdleStop(a), a, Unrecorded)];
  }

  /** The machine stops after the manifest of the first generation was stored. */
  lemma CrashAfterPublish(cfg: Config, a: PackId, b: PackId, f: Forest)
    requires !cfg.sizer && a != "" && b != "" && a != b && WellFormed(f) && IsDirectory(Flat([], f))
    ensures Reachable(cfg, ASSUMED,
                      Unread(a, f, Settled(Recovering, a, 0, None), map[3 := StartW(a, true, Entered)], map[], {}, 4))
  {
    StopUploads(cfg, ASSUMED, a, Switch(b), Flat([], f));
    ArchiveStored(cfg, a, b, f);
  }

  lemma ArchiveStored(cfg: Config, a: PackId, b: PackId, f: Forest)
    requires a != "" && WellFormed(f)
    requires Reachable(cfg, ASSUMED, Leaving(a, Switch(b), Flat([], f), Saving2(a, None, false), map[], {}, Upload(1)))
    ensures Reachable(cfg, ASSUMED,
                      Unread(a, f, Settled(Recovering, a, 0, None), map[3 := StartW(a, true, Entered)], map[], {}, 4))
  {
    var h := ASSUMED;
    var m := ManifestOf(a, 1, FirstArchive(f));
    var s0 := Leaving(a, Switch(b), Flat([], f), Saving2(a, None, false), map[], {}, Upload(1));
    var s1 := Goto(s0.(vaults := map[a := FirstUpload(f)]), 2, StopW(Switch(b), a, Publish(m)));
    assert s0.vaults[a := FirstUpload(f)] == s1.vaults;
    StopMoves(cfg, h, s0, 2, Put(Stored, f, 0), s1);
    PublishThenCrash(cfg, a, b, f, s1);
  }

  lemma PublishThenCrash(cfg: Config, a: PackId, b: PackId, f: Forest, s1: Sys)
    requires a != "" && Reachable(cfg, ASSUMED, s1)
    requires s1 == Unread(a, f, Saving2(a, None, false), s1.workers, map[], {}, 3).(vaults := map[a := FirstUpload(f)])
    requires s1.workers == map[2 := StopW(Switch(b), a, Publish(ManifestOf(a, 1, FirstArchive(f))))]
    ensures Reachable(cfg, ASSUMED,
                      Unread(a, f, Settled(Recovering, a, 0, None), map[3 := StartW(a, true, Entered)], map[], {}, 4))
  {
    var m := ManifestOf(a, 1, FirstArchive(f));
    var s2 := Goto(s1.(vaults := map[a := FirstBackup(a, f)]), 2, StopW(Switch(b), a, Verify(m)));
    assert s1.vaults[a := FirstBackup(a, f)] == s2.vaults;
    StopMoves(cfg, ASSUMED, s1, 2, Put(Stored, f, 0), s2);
    var s3 := Unread(a, f, Settled(Recovering, a, 0, None), map[3 := StartW(a, true, Entered)], map[], {}, 4);
    Extend(cfg, ASSUMED, s2, Crash, s3);
  }

  /** The recovering start cannot read the head, and goes on all the same. */
  lemma ProbeUnread(cfg: Config, a: PackId, f: Forest)
    requires !cfg.sizer
    requires Reachable(cfg, ASSUMED,
                       Unread(a, f, Settled(Recovering, a, 0, None), map[3 := StartW(a, true, Entered)], map[], {}, 4))
    ensures Reachable(cfg, ASSUMED,
                      Unread(a, f, Pending(Recovering, a, None, false),
                             map[3 := StartW(a, true, Launch)], map[], {}, 4))
  {
    var core := Settled(Recovering, a, 0, None);
    var s3 := Unread(a, f, core, map[3 := StartW(a, true, Entered)], map[], {}, 4);
    var s4 := Unread(a, f, core, map[3 := StartW(a, true, Probe)], map[], {}, 4);
    assert s3.workers[3 := StartW(a, true, Probe)] == s4.workers;
    StartMoves(cfg, ASSUMED, s3, 3, Go, s4);
    var s5 := Unread(a, f, core, map[3 := StartW(a, true, Prepare(false, 0, true))], map[], {}, 4);
    assert s4.workers[3 := StartW(a, true, Prepare(false, 0, true))] == s5.workers;
    Extend(cfg, ASSUMED, s4, Advance(3, Unreadable), s5);
    var s6 := Unread(a, f, Pending(Recovering, a, None, false), map[3 := StartW(a, true, Launch)], map[], {}, 4);
    assert s5.workers[3 := StartW(a, true, Launch)] == s6.workers;
    StartMoves(cfg, ASSUMED, s5, 3, Go, s6);
  }

  lemma ReadyUnread(cfg: Config, a: PackId, f: Forest)
    requires IsDirectory(Flat([], f))
    requires Reachable(cfg, ASSUMED,
                       Unread(a, f, Pending(Recovering, a, None, false),
                              map[3 := StartW(a, true, Launch)], map[], {}, 4))
    ensures Reachable(cfg, ASSUMED, Unread(a, f, Pending(Ready, a, Some(4), false), map[], map[4 := a], {4}, 5))
  {
    var s6 := Unread(a, f, Pending(Recovering, a, None, false), map[3 := StartW(a, true, Launch)], map[], {}, 4);
    var s7 := Unread(a, f, Pending(Recovering, a, None, false),
                     map[3 := StartW(a, true, Registering(4))], map[4 := a], {}, 5);
    assert s6.workers[3 := StartW(a, true, Registering(4))] == s7.workers;
    assert s6.live[4 := a] == s7.live && s6.dirs[a := Flat([], f)] == s7.dirs;
    LaunchStep(cfg, s6, 3, StartW(a, true, Launch), Flat([], f));
    StartMoves(cfg, ASSUMED, s6, 3, Edited(Flat([], f)), s7);
    PolledUnread(cfg, a, f);
  }

  lemma PolledUnread(cfg: Config, a: PackId, f: Forest)
    requires Reachable(cfg, ASSUMED,
                       Unread(a, f, Pending(Recovering, a, None, false),
                              map[3 := StartW(a, true, Registering(4))], map[4 := a], {}, 5))
    ensures Reachable(cfg, ASSUMED, Unread(a, f, Pending(Ready, a, Some(4), false), map[], map[4 := a], {4}, 5))
  {
    var s7 := Unread(a, f, Pending(Recovering, a, None, false),
                     map[3 := StartW(a, true, Registering(4))], map[4 := a], {}, 5);
    var s8 := Unread(a, f, Pending(Recovering, a, Some(4), false),
                     map[3 := StartW(a, true, Polling(4))], map[4 := a], {4}, 5);
    assert s7.workers[3 := StartW(a, true, Polling(4))] == s8.workers;
    RegisterStep(cfg, s7, 3, StartW(a, true, Registering(4)), 4);
    StartMoves(cfg, ASSUMED, s7, 3, Go, s8);
    var s9 := Unread(a, f, Pending(Ready, a, Some(4), false), map[], map[4 := a], {4}, 5);
    assert s8.workers - {3} == map[];
    PollStep(cfg, s8, 3, StartW(a, true, Polling(4)), 4);
    StartMoves(cfg, ASSUMED, s8, 3, Go, s9);
  }

  lemma StopUnread(cfg: Config, a: PackId, f: Forest)
    requires a != ""
    requires Reachable(cfg, ASSUMED, Unread(a, f, Pending(Ready, a, Some(4), false), map[], map[4 := a], {4}, 5))
    ensures Reachable(cfg, ASSUMED, Conflicting(a, f))
  {
    var h := ASSUMED;
    var s0 := Unread(a, f, Pending(Ready, a, Some(4), false), map[], map[4 := a], {4}, 5);
    var s1 := Unread(a, f, Pending(Draining, a, Some(4), false),
                     map[5 := StopW(IdleStop(a), "", Drained)], map[4 := a], {4}, 6);
    assert s0.workers[5 := StopW(IdleStop(a), "", Drained)] == s1.workers;
    Extend(cfg, h, s0, BeginIdleStop(a), s1);
    var s2 := Unread(a, f, Pending(Saving, a, Some(4), false),
                     map[5 := StopW(IdleStop(a), a, SaveAll(4))], map[4 := a], {4}, 6);
    assert s1.workers[5 := StopW(IdleStop(a), a, SaveAll(4))] == s2.workers;
    StopMoves(cfg, h, s1, 5, Go, s2);
    StopCommands(cfg, h, s2, 5, IdleStop(a), a, 4);
    var s3 := Unread(a, f, Pending(Saving, a, Some(4), true),
                     map[5 := StopW(IdleStop(a), a, Await(4))], map[4 := a], {4}, 6);
    assert s2.workers[5 := StopW(IdleStop(a), a, Await(4))] == s3.workers;
    assert Goto(s2.(core := ExpectStop(s2.core, true)), 5, StopW(IdleStop(a), a, Await(4))) == s3;
    ExitUnread(cfg, a, f);
  }

  lemma ExitUnread(cfg: Config, a: PackId, f: Forest)
    requires Reachable(cfg, ASSUMED, Unread(a, f, Pending(Saving, a, Some(4), true),
                                               map[5 := StopW(IdleStop(a), a, Await(4))], map[4 := a], {4}, 6))
    ensures Reachable(cfg, ASSUMED, Conflicting(a, f))
  {
    var h := ASSUMED;
    var ws := map[5 as nat := StopW(IdleStop(a), a, Await(4))];
    var s3 := Unread(a, f, Pending(Saving, a, Some(4), true), ws, map[4 := a], {4}, 6);
    var s4 := Unread(a, f, Pending(Saving, a, Some(4), true), ws, map[], {4}, 6);
    assert s3.live - {4} == map[];
    Extend(cfg, h, s3, Exit(4), s4);
    var s5 := Unread(a, f, Pending(Saving, a, None, false), ws, map[], {}, 6);
    assert s4.waiters - {4} == {};
    Extend(cfg, h, s4, Observe(4), s5);
    StopReads(cfg, h, s5, 5, IdleStop(a), a, 4);
    assert s5.workers[5 := StopW(IdleStop(a), a, CheckHead(0))] == Conflicting(a, f).workers;
  }

  // ------------------------------------------------------- an overlooked head generation

  const OVERLOOKING := ASSUMED.(honestHead := false)

  /** The pack is evicted, nothing runs, and a login begins its start. */
  function Restarting(a: PackId, f: Forest, spc: StartPc): Sys {
    Sys(Settled(Loading, a, 0, None), map[3 := StartW(a, false, spc)], map[], {}, map[],
        map[a := FirstBackup(a, f)], map[a := Flat([], f)], 4)
  }

  lemma LoginAgain(cfg: Config, h: Hypotheses, a: PackId, f: Forest)
    requires !cfg.sizer && cfg.evict && a != "" && WellFormed(f)
    ensures Reachable(cfg, h, Restarting(a, f, Entered))
  {
    StopEvicts(cfg, h, a, IdleStop(a), f);
    var s1 := Evicted(a, IdleStop(a), f);
    var s2 := s1.(core := INITIAL, workers := map[]);
    assert s1.workers - {2} == map[];
    StopMoves(cfg, h, s1, 2, Go, s2);
    var s3 := Restarting(a, f, Entered);
    assert s2.workers[3 := StartW(a, false, Entered)] == s3.workers;
    Extend(cfg, h, s2, Login(a), s3);
  }

  lemma OverlookedHead(cfg: Config, a: PackId, f: Forest)
    requires !cfg.sizer && cfg.evict && a != "" && WellFormed(f)
    ensures Reachable(cfg, OVERLOOKING, Restarting(a, f, Launch))
  {
    LoginAgain(cfg, OVERLOOKING, a, f);
    var s3, s4 := Restarting(a, f, Entered), Restarting(a, f, Probe);
    assert s3.workers[3 := StartW(a, false, Probe)] == s4.workers;
    StartMoves(cfg, OVERLOOKING, s3, 3, Go, s4);
    HeadOverlooked(cfg, a, f);
  }

  lemma HeadOverlooked(cfg: Config, a: PackId, f: Forest)
    requires Reachable(cfg, OVERLOOKING, Restarting(a, f, Probe))
    ensures Reachable(cfg, OVERLOOKING, Restarting(a, f, Launch))
  {
    var h := OVERLOOKING;
    var s4 := Restarting(a, f, Probe);
    var s5 := Restarting(a, f, Prepare(false, 0, false));
    assert s4.workers[3 := StartW(a, false, Prepare(false, 0, false))] == s5.workers;
    FirstBackupHead(a, f);
    Extend(cfg, h, s4, Advance(3, Overlooked(0)), s5);
    var s6 := Restarting(a, f, Launch);
    assert s5.workers[3 := StartW(a, false, Launch)] == s6.workers;
    StartMoves(cfg, h, s5, 3, Go, s6);
  }

  /** Without honest head checks an evicted world can be replaced: the start that follows passes over
      its only backup, finds none, and launches a new world in its place. */
  lemma OverlookedHeadStartsAfresh(cfg: Config, a: PackId, f: Forest, fs: Fs)
    requires !cfg.sizer && cfg.evict && a != "" && WellFormed(f)
    requires IsDirectory(fs) && fs != Kept(Flat([], f))
    ensures var s := Restarting(a, f, Launch);
            && Reachable(cfg, OVERLOOKING, s) && Enabled(OVERLOOKING, s, Advance(3, Edited(fs)))
            && a in s.held && s.held[a] == Flat([], f) && a !in s.dirs && HeadGen(VaultOf(s, a), a) == 1
            && var s' := Apply(cfg, s, Advance(3, Edited(fs)));
               a in s'.dirs && s'.dirs[a] == fs && !LifecycleTheorems.Returns(s, s', a)
  {
    OverlookedHead(cfg, a, f);
    FirstBackupHead(a, f);
    LaunchStep(cfg, Restarting(a, f, Launch), 3, StartW(a, false, Launch), fs);
  }

  // ---------------------------------------------------------- an interrupted eviction

  /** The machine stopped while the pack was evicted and recovers with what is left of it. */
  function Resuming(a: PackId, f: Forest, part: Fs, spc: StartPc): Sys {
    Sys(Settled(Recovering, a, 1, None), map[3 := StartW(a, true, spc)], map[], {}, map[a := part],
        map[a := FirstBackup(a, f)], map[a := Flat([], f)], 4)
  }

  lemma PartlyStep(cfg: Config, s: Sys, t: nat, w: Worker, part: Fs)
    requires t in s.workers && s.workers[t] == w && w.StopW? && w.pc.Evict? && w.id in s.dirs
    requires Remains(s.dirs[w.id], part)
    ensures Enabled(ASSUMED, s, Advance(t, Partly(part)))
    ensures Apply(cfg, s, Advance(t, Partly(part))) == s.(dirs := s.dirs[w.id := part])
  {
  }

  lemma EvictionInterrupted(cfg: Config, a: PackId, f: Forest, part: Fs)
    requires !cfg.sizer && cfg.evict && a != "" && WellFormed(f) && Remains(Flat([], f), part)
    ensures Reachable(cfg, ASSUMED, Resuming(a, f, part, Entered))
  {
    var kind := IdleStop(a);
    StopBacksUp(cfg, ASSUMED, a, kind, f);
    var s0 := Evicting(a, kind, f, Flat([], f));
    PartlyStep(cfg, s0, 2, StopW(kind, a, Evict), part);
    assert s0.dirs[a := part] == map[a := part];
    Extend(cfg, ASSUMED, s0, Advance(2, Partly(part)), Evicting(a, kind, f, part));
    CrashEvicting(cfg, ASSUMED, a, f, part);
  }

  lemma CrashEvicting(cfg: Config, h: Hypotheses, a: PackId, f: Forest, part: Fs)
    requires a != "" && Reachable(cfg, h, Evicting(a, IdleStop(a), f, part))
    ensures Reachable(cfg, h, Resuming(a, f, part, Entered))
  {
    Extend(cfg, h, Evicting(a, IdleStop(a), f, part), Crash, Resuming(a, f, part, Entered));
  }

  lemma RemainsLaunch(cfg: Config, a: PackId, f: Forest, part: Fs)
    requires !cfg.sizer && Reachable(cfg, ASSUMED, Resuming(a, f, part, Entered))
    ensures Reachable(cfg, ASSUMED, Resuming(a, f, part, Launch))
  {
    var h := ASSUMED;
    var s2, s3 := Resuming(a, f, part, Entered), Resuming(a, f, part, Probe);
    assert s2.workers[3 := StartW(a, true, Probe)] == s3.workers;
    StartMoves(cfg, h, s2, 3, Go, s3);
    var s4 := Resuming(a, f, part, Prepare(true, 1, false));
    assert s3.workers[3 := StartW(a, true, Prepare(true, 1, false))] == s4.workers;
    FirstBackupHead(a, f);
    StartMoves(cfg, h, s3, 3, Go, s4);
    RemainsPrepared(cfg, a, f, part);
  }

  lemma RemainsPrepared(cfg: Config, a: PackId, f: Forest, part: Fs)
    requires Reachable(cfg, ASSUMED, Resuming(a, f, part, Prepare(true, 1, false)))
    ensures Reachable(cfg, ASSUMED, Resuming(a, f, part, Launch))
  {
    var s4 := Resuming(a, f, part, Prepare(true, 1, false));
    var s5 := Resuming(a, f, part, Launch);
    assert s4.workers[3 := StartW(a, true, Launch)] == s5.workers;
    StartMoves(cfg, ASSUMED, s4, 3, Go, s5);
  }

  /** Under all the assumptions, a server can run on any remains of its world although the head of its
      backups holds all of it: the machine stops during an eviction, and the recovering start finds
      a directory and restores nothing. */
  lemma InterruptedEvictionRunsOnRemains(cfg: Config, a: PackId, f: Forest, part: Fs) returns (s: Sys)
    requires !cfg.sizer && cfg.evict && a != "" && WellFormed(f) && Remains(Flat([], f), part)
    ensures Reachable(cfg, ASSUMED, s)
    ensures s.live == map[4 := a] && a in s.dirs && s.dirs[a] == part && !s.core.state.pending
    ensures CommitsTree(VaultOf(s, a), a, f, HeadGen(VaultOf(s, a), a))
  {
    EvictionInterrupted(cfg, a, f, part);
    RemainsLaunch(cfg, a, f, part);
    var s5 := Resuming(a, f, part, Launch);
    s := Goto(SetDir(s5, a, part).(live := map[4 := a], next := 5), 3, StartW(a, true, Registering(4)));
    assert s5.live[4 := a] == s.live;
    LaunchStep(cfg, s5, 3, StartW(a, true, Launch), part);
    StartMoves(cfg, ASSUMED, s5, 3, Edited(part), s);
    FirstBackupHead(a, f);
    HeadIsGreatest(FirstBackup(a, f), a);
  }

  // ----------------------------------------------------------------- symbolic links

  /** Even under all the assumptions, a world in which a symbolic link survives is backed up and
      evicted, and then can never be restored. */
  lemma LinkedWorldStranded(cfg: Config, a: PackId, b: PackId, f: Forest, rooted: bool, st: Path, ups: nat)
    requires !cfg.sizer && cfg.evict && a != "" && b != "" && a != b && WellFormed(f)
    requires Staging(cfg.tmp, rooted, st, ups)
    ensures var s := Switched(a, b, f);
            && Reachable(cfg, ASSUMED, s) && a in s.held && s.held[a] == Flat([], f) && a !in s.dirs
            && HeadGen(VaultOf(s, a), a) == 1 && VaultOf(s, a).archives[1].ArchiveObject?
            && (Replay(cfg.tmp, map[], VaultOf(s, a).archives[1].entries).Failure? <==> HasLink(Kept(Flat([], f))))
  {
    SwitchCompletes(cfg, ASSUMED, a, b, f);
    FirstBackupHead(a, f);
    RoundTrip.ArchiveRoundTrip(cfg.tmp, rooted, st, ups, f);
  }

  /** For instance a world of one link: evicted with a complete backup, and lost to every restore. */
  lemma OneLinkStranded(cfg: Config, a: PackId, b: PackId, rooted: bool, st: Path, ups: nat)
    requires !cfg.sizer && cfg.evict && a != "" && b != "" && a != b && Staging(cfg.tmp, rooted, st, ups)
    ensures var s := Switched(a, b, RoundTrip.LINKED);
            && Reachable(cfg, ASSUMED, s) && a in s.held && a !in s.dirs
            && HeadGen(VaultOf(s, a), a) == 1 && VaultOf(s, a).archives[1].ArchiveObject?
            && Replay(cfg.tmp, map[], VaultOf(s, a).archives[1].entries).Failure?
  {
    RoundTrip.LinkedWorldRefused(cfg.tmp, rooted, st, ups);
    RoundTrip.ArchiveRoundTrip(cfg.tmp, rooted, st, ups, RoundTrip.LINKED);
    LinkedWorldStranded(cfg, a, b, RoundTrip.LINKED, rooted, st, ups);
  }
}
